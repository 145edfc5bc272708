/**
 * A zone as the router sees it (zones.go): a store of keys behind a FIFO queue of commands. Each command has a fate,
 * fixed when it is forwarded but unknown to the router, so that every way a connection can fail is covered.
 */
module Zones {
  import opened Bytes
  import opened Wrappers
  import Numbers

  /** What a key holds: a string with an optional time to live, or a value of another type. */
  datatype Entry = Str(value: bytes, ttl: Option<nat>) | Other

  type Store = map<bytes, Entry>

  datatype Command =
    | Get(key: bytes)
    | Ttl(key: bytes)
    | Set(key: bytes, value: bytes, expire: Option<nat>)
    | Del(key: bytes)

  datatype Reply = Bulk(value: Option<bytes>) | Status(text: bytes) | Integer(n: int) | ErrorReply(text: bytes)

  /** The Go expression string(resp.Value); a nil bulk reads as the empty string. */
  function Text(reply: Reply): bytes {
    match reply
    case Bulk(value) => if value.Some? then value.value else []
    case Status(text) => text
    case ErrorReply(text) => text
    case Integer(n) => Numbers.FormatInt(n)
  }

  const OK: bytes := [0x4F, 0x4B]
  const WRONG_TYPE: bytes := [0x57, 0x52, 0x4F, 0x4E, 0x47, 0x54, 0x59, 0x50, 0x45]  // the first word of it

  datatype Fate =
    | Served  // executed, and the reply came back
    | Lost(applied: bool)  // the connection broke: no reply, though it may have been executed
    | Refused(text: bytes)  // an error reply, not executed
    | Full  // dropped by PushBack: completed without a reply
    | NilConn  // no backend connection: Forward panics

  /** No server words a refusal as the success status. */
  predicate Honest(fates: seq<Fate>) {
    forall i :: 0 <= i < |fates| && fates[i].Refused? ==> fates[i].text != OK && fates[i].text != []
  }

  // ---------------------------------------------------------------- what the server does

  /** The server's view of a single command. */
  function Effect(store: Store, cmd: Command): Store {
    match cmd
    case Get(_) => store
    case Ttl(_) => store
    case Set(key, value, expire) => store[key := Str(value, expire)]
    case Del(key) => store - {key}
  }

  function Answer(store: Store, cmd: Command): Reply {
    match cmd
    case Get(key) =>
      if key !in store then Bulk(None)
      else if store[key].Other? then ErrorReply(WRONG_TYPE)
      else Bulk(Some(store[key].value))
    case Ttl(key) =>
      if key !in store then Integer(-2)
      else if store[key].Str? && store[key].ttl.Some? then Integer(store[key].ttl.value)
      else Integer(-1)
    case Set(_, _, _) => Status(OK)
    case Del(key) => Integer(if key in store then 1 else 0)
  }

  /** What a key reads as: an absent key and a key of another type have no text. */
  function View(store: Store, key: bytes): bytes {
    if key in store && store[key].Str? then store[key].value else []
  }

  /** The server executes the command. */
  predicate Runs(fate: Fate) {
    fate.Served? || fate == Lost(true)
  }

  function Executed(store: Store, cmd: Command, fate: Fate): Store {
    if Runs(fate) then Effect(store, cmd) else store
  }

  /** What the commands do to a store, key by key, and what they are answered with. */
  lemma CommandsMean(store: Store, key: bytes, value: bytes, expire: Option<nat>, x: bytes)
    ensures
      var set_ := Effect(store, Set(key, value, expire));
      && key in set_ && set_[key] == Str(value, expire)
      && (x != key ==> (x in set_ <==> x in store) && (x in set_ ==> set_[x] == store[x]))
    ensures
      var del := Effect(store, Del(key));
      && key !in del
      && (x != key ==> (x in del <==> x in store) && (x in del ==> del[x] == store[x]))
    ensures Effect(store, Get(key)) == store == Effect(store, Ttl(key))
    ensures Answer(store, Set(key, value, expire)) == Status([79, 75])
    ensures Answer(store, Get(key)) ==
      if key !in store then Bulk(None) else if store[key].Str? then Bulk(Some(store[key].value)) else ErrorReply(WRONG_TYPE)
    ensures Answer(store, Ttl(key)) ==
      if key !in store then Integer(-2)
      else if store[key].Str? && store[key].ttl.Some? then Integer(store[key].ttl.value) else Integer(-1)
  {
  }

  /** Which fates let the server execute a command. */
  lemma FatesMean(store: Store, cmd: Command, text: bytes)
    ensures Executed(store, cmd, Served) == Executed(store, cmd, Lost(true)) == Effect(store, cmd)
    ensures Executed(store, cmd, Lost(false)) == Executed(store, cmd, Refused(text)) == store
    ensures Executed(store, cmd, Full) == Executed(store, cmd, NilConn) == store
  {
  }

  /** What becomes of a request's Resp field: untouched, cleared, or filled in. */
  datatype Outcome = Dropped | Broken | Replied(reply: Reply)

  function Response(store: Store, cmd: Command, fate: Fate): Outcome {
    match fate
    case Served => Replied(Answer(store, cmd))
    case Refused(text) => Replied(ErrorReply(text))
    case Lost(_) => Broken
    case _ => Dropped
  }

  /** The Resp field after a completion, given its previous value. */
  function RespAfter(previous: Option<Reply>, outcome: Outcome): Option<Reply> {
    match outcome
    case Dropped => previous
    case Broken => None
    case Replied(reply) => Some(reply)
  }

  // ---------------------------------------------------------------- the queue

  datatype Queued = Queued(ticket: nat, cmd: Command, fate: Fate)

  /** The store once everything queued has been executed. */
  ghost function Settle(store: Store, queue: seq<Queued>): Store
    decreases |queue|
  {
    if queue == [] then store else Settle(Executed(store, queue[0].cmd, queue[0].fate), queue[1..])
  }

  /** The outcome the first queued command with this ticket will have. */
  ghost function Pending(store: Store, queue: seq<Queued>, t: nat): Option<Outcome>
    decreases |queue|
  {
    if queue == [] then None
    else if queue[0].ticket == t then Some(Response(store, queue[0].cmd, queue[0].fate))
    else Pending(Executed(store, queue[0].cmd, queue[0].fate), queue[1..], t)
  }

  /** FIFO: a command queued last sees every command queued before it, and changes none of their outcomes. */
  lemma {:induction false} QueuedLast(store: Store, queue: seq<Queued>, q: Queued, t: nat)
    requires forall i :: 0 <= i < |queue| ==> queue[i].ticket != q.ticket
    ensures Settle(store, queue + [q]) == Executed(Settle(store, queue), q.cmd, q.fate)
    ensures t == q.ticket ==> Pending(store, queue + [q], t) == Some(Response(Settle(store, queue), q.cmd, q.fate))
    ensures t != q.ticket ==> Pending(store, queue + [q], t) == Pending(store, queue, t)
    decreases |queue|
  {
    hide Response, Executed;
    if queue == [] {
      assert (queue + [q])[1..] == [];
    } else {
      assert (queue + [q])[1..] == queue[1..] + [q];
      QueuedLast(Executed(store, queue[0].cmd, queue[0].fate), queue[1..], q, t);
    }
  }

  /** The next fate, and the fates after it. When the script is over every command is served. */
  function FateAt(script: seq<Fate>, i: nat): Fate {
    if i < |script| then script[i] else Served
  }

  function Later(script: seq<Fate>, n: nat): (s: seq<Fate>)
    ensures forall i: nat :: FateAt(s, i) == FateAt(script, n + i)
    ensures Honest(script) ==> Honest(s)
  {
    if n <= |script| then script[n..] else []
  }

  lemma LaterLater(script: seq<Fate>, m: nat, n: nat)
    ensures Later(Later(script, m), n) == Later(script, m + n)
  {
  }

  // ---------------------------------------------------------------- the zone

  class Zone {
    const prefix: bytes
    var store: Store
    var queue: seq<Queued>
    var done: map<nat, Outcome>  // by ticket
    var next: nat
    var script: seq<Fate>
    var raised: nat  // requests whose batch was counted up and never will be counted down

    /** The queue is in order and executed in order, and every ticket is either completed or in the queue. */
    ghost predicate Valid()
      reads this`store, this`queue, this`done, this`next
    {
      && (forall t :: t in done ==> t < next)
      && (forall i :: 0 <= i < |queue| ==> queue[i].ticket < next && queue[i].ticket !in done)
      && (forall i, j :: 0 <= i < j < |queue| ==> queue[i].ticket < queue[j].ticket)
      && (forall t :: 0 <= t < next ==> Promised(t).Some?)
      && (forall t, i :: t in done && done[t] != Dropped && 0 <= i < |queue| ==> t < queue[i].ticket)
    }

    /** The outcome a ticket has or will have. */
    ghost function Promised(t: nat): Option<Outcome>
      reads this`store, this`queue, this`done
    {
      if t in done then Some(done[t]) else Pending(store, queue, t)
    }

    /** The store as it will be: what this zone's later commands will see. */
    ghost function Settled(): Store
      reads this`store, this`queue
    {
      Settle(store, queue)
    }

    constructor (prefix: bytes, store: Store, script: seq<Fate>)
      ensures Valid() && this.prefix == prefix && this.script == script
      ensures this.store == store && queue == [] && Settled() == store && raised == 0
    {
      this.prefix := prefix;
      this.store := store;
      this.queue := [];
      this.done := map[];
      this.next := 0;
      this.script := script;
      this.raised := 0;
    }

    /**
     * Forward on the zone's only connection: PushBack queues the request, drops it, or panics on a nil connection, and then
     * it has already counted the request's batch up.
     */
    method Forward(cmd: Command) returns (ticket: nat, panicked: bool)
      requires Valid()
      modifies this
      ensures Valid()
      ensures panicked == (FateAt(old(script), 0) == NilConn)
      ensures script == Later(old(script), 1) && raised == old(raised) + if panicked then 1 else 0
      ensures Settled() == Executed(old(Settled()), cmd, FateAt(old(script), 0))
      ensures !panicked ==>
        ticket == old(next) == next - 1 && Promised(ticket) == Some(Response(old(Settled()), cmd, FateAt(old(script), 0)))
      ensures forall t :: 0 <= t < old(next) ==> t < next && Promised(t) == old(Promised(t))
    {
      hide Settle, Pending;
      var fate := FateAt(script, 0);
      script := Later(script, 1);
      ticket := next;
      panicked := fate == NilConn;
      if panicked {
        raised := raised + 1;
      }
      if fate == Full {
        Drop();
      } else if fate != NilConn {
        Enqueue(Queued(ticket, cmd, fate));
      }
    }

    /** A full input: the request completes at once, without a reply. */
    method Drop()
      requires Valid()
      modifies this`done, this`next
      ensures Valid() && next == old(next) + 1 && Promised(old(next)) == Some(Dropped)
      ensures forall t :: 0 <= t < old(next) ==> Promised(t) == old(Promised(t))
    {
      hide Settle, Pending;
      ghost var before := next;
      done := done[next := Dropped];
      next := next + 1;
      assert forall t :: 0 <= t < before ==> Promised(t) == old(Promised(t));
    }

    method Enqueue(q: Queued)
      requires Valid() && q.ticket == next
      modifies this`queue, this`next
      ensures Valid() && next == old(next) + 1
      ensures Settled() == Executed(old(Settled()), q.cmd, q.fate)
      ensures Promised(q.ticket) == Some(Response(old(Settled()), q.cmd, q.fate))
      ensures forall t :: 0 <= t < old(next) ==> Promised(t) == old(Promised(t))
    {
      hide Settle, Pending, Executed, Response;
      ghost var before := next;
      forall t: nat
        ensures Settle(store, queue + [q]) == Executed(Settle(store, queue), q.cmd, q.fate)
        ensures t == q.ticket ==> Pending(store, queue + [q], t) == Some(Response(Settle(store, queue), q.cmd, q.fate))
        ensures t != q.ticket ==> Pending(store, queue + [q], t) == Pending(store, queue, t)
      {
        QueuedLast(store, queue, q, t);
      }
      QueuedLast(store, queue, q, q.ticket);
      queue := queue + [q];
      next := next + 1;
      assert forall t :: 0 <= t < before ==> Promised(t) == old(Promised(t));
    }

    /** The server works off the oldest command. */
    method Execute()
      requires Valid() && queue != []
      modifies this`store, this`queue, this`done
      ensures Valid() && Settled() == old(Settled()) && |queue| == |old(queue)| - 1
      ensures forall t :: 0 <= t < next ==> Promised(t) == old(Promised(t))
    {
      hide Executed, Response;
      var q := queue[0];
      done := done[q.ticket := Response(store, q.cmd, q.fate)];
      store := Executed(store, q.cmd, q.fate);
      queue := queue[1..];
      assert forall t :: 0 <= t < next ==> Promised(t) == old(Promised(t));
    }

    /** Batch.Wait(): the server works through its queue until this command is done. */
    method Wait(ticket: nat) returns (outcome: Outcome)
      requires Valid() && ticket < next
      modifies this`store, this`queue, this`done
      ensures Valid() && Settled() == old(Settled())
      ensures Some(outcome) == old(Promised(ticket))
      ensures outcome != Dropped && ticket == next - 1 ==> queue == []
      ensures forall t :: 0 <= t < next ==> Promised(t) == old(Promised(t))
    {
      while ticket !in done
        invariant Valid() && Settled() == old(Settled())
        invariant forall t :: 0 <= t < next ==> Promised(t) == old(Promised(t))
        decreases |queue|
      {
        assert Promised(ticket).Some?;
        Execute();
      }
      outcome := done[ticket];
    }
  }
}
