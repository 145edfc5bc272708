/**
 * Several routers, one per zone, each dispatching any number of GETs and SETs at once (router.go, the GET and SET
 * branches of dispatch). Every Forward, every execution by a server and every wake-up is a step of its own, so the
 * routers, clients and servers interleave in any order. Values carry where they came from.
 */
module Replication {
  import opened Bytes
  import opened Wrappers
  import Router
  import Zones

  datatype Origin =
    | Initial
    | Written(n: nat)  // by the n-th SET dispatched in the run
    | ErrorText  // the text of an error reply
    | Unowned  // by a command on a key of no configured zone

  datatype Value = Value(text: bytes, origin: Origin)

  datatype Entry = Str(value: Value) | Other

  datatype Op = Get | Ttl | Set(value: Value) | Del

  /** A command in a zone's queue; the dispatch waiting for it, if any. */
  datatype Queued = Queued(key: bytes, op: Op, waiter: Option<nat>)

  datatype Zone = Zone(store: map<bytes, Entry>, queue: seq<Queued>)

  datatype Stage =
    | AskLocal | GotLocal(v: Value)
    | AskHome | GotHome(v: Value)
    | AskTtl(v: Value) | GotTtl(v: Value)
    | AskFill

  /** A dispatch in progress at a router: a SET with copies still to be forwarded, or a GET. */
  datatype Task =
    | Copying(router: bytes, key: bytes, value: Value, todo: set<bytes>)
    | Reading(router: bytes, key: bytes, stage: Stage)

  /** A SET that a client gave to the router of its key's own zone. */
  datatype Write = Write(router: bytes, key: bytes, text: bytes)

  datatype State = State(
    sep: bytes,
    zones: map<bytes, Zone>,
    tasks: map<nat, Task>, next: nat,
    log: seq<Write>,
    refusals: set<(bytes, bytes)>,  // key and text of every error reply to a GET
    lossy: set<(bytes, bytes)>)  // zone and key where a SET was not executed, or the value expired

  datatype Fate = Served | Lost(applied: bool) | Refused(text: bytes)

  /** A Forward that is dropped leaves no reply, so it ends a GET; a nil connection ends any dispatch. */
  datatype Step =
    | StartSet(router: bytes, key: bytes, text: bytes, dropped: bool)
    | CopyTo(id: nat, zone: bytes, dropped: bool)
    | EndSet(id: nat)
    | StartGet(router: bytes, key: bytes)
    | Proceed(id: nat, dropped: bool)
    | Execute(zone: bytes, fate: Fate)
    | Expire(zone: bytes, key: bytes)
    | Elsewhere(zone: bytes, cmd: Queued)  // any command on a key that no configured zone owns

  predicate Init(s: State) {
    && s.sep != [] && s.tasks == map[] && s.log == [] && s.refusals == {} && s.lossy == {}
    && (forall z :: z in s.zones ==> s.zones[z].queue == [])
    && (forall z, k :: z in s.zones && k in s.zones[z].store && s.zones[z].store[k].Str? ==>
          s.zones[z].store[k].value.origin == Initial)
  }

  /** The configured zone that owns a key. */
  function Owner(s: State, key: bytes): Option<bytes> {
    if s.sep == [] then None
    else match Router.ZonePart(key, s.sep)
         case None => None
         case Some(p) => if p in s.zones then Some(p) else None
  }

  // ---------------------------------------------------------------- steps

  function Push(s: State, z: bytes, q: Queued): State
    requires z in s.zones
  {
    s.(zones := s.zones[z := s.zones[z].(queue := s.zones[z].queue + [q])])
  }

  function WithTask(s: State, id: nat, task: Task): State {
    s.(tasks := s.tasks[id := task])
  }

  function Without(s: State, id: nat): State {
    s.(tasks := s.tasks - {id})
  }

  /** Forward for a dispatch that then waits: queued with the dispatch as waiter, or dropped, which ends it. */
  function Ask(s: State, id: nat, task: Task, z: bytes, op: Op, dropped: bool): State
    requires z in s.zones
  {
    if dropped then Without(s, id) else Push(WithTask(s, id, task), z, Queued(task.key, op, Some(id)))
  }

  /** What a GET dispatch does once its reply is there. */
  function Continue(s: State, id: nat, t: Task, dropped: bool): State
    requires t.Reading? && t.router in s.zones
  {
    var home := Owner(s, t.key);
    match t.stage
    case GotLocal(v) =>
      if v.text == [] && home.Some? && home.value != t.router
      then Ask(s, id, t.(stage := AskHome), home.value, Get, dropped) else Without(s, id)
    case GotHome(v) =>
      if v.text != [] && home.Some? then Ask(s, id, t.(stage := AskTtl(v)), home.value, Ttl, dropped) else Without(s, id)
    case GotTtl(v) => Ask(s, id, t.(stage := AskFill), t.router, Set(v), dropped)
    case _ => s
  }

  function Applied(store: map<bytes, Entry>, q: Queued): map<bytes, Entry> {
    match q.op
    case Set(v) => store[q.key := Str(v)]
    case Del => store - {q.key}
    case _ => store
  }

  predicate Applies(fate: Fate) {
    fate == Served || fate == Lost(true)
  }

  predicate AnswersError(store: map<bytes, Entry>, q: Queued, fate: Fate) {
    q.op.Get? && (fate.Refused? || (fate.Served? && q.key in store && store[q.key].Other?))
  }

  /** The text a GET is answered with; a missing key reads as the empty string. */
  function Found(store: map<bytes, Entry>, key: bytes, fate: Fate): Value {
    match fate
    case Refused(text) => Value(text, ErrorText)
    case _ =>
      if key !in store then Value([], Initial)
      else match store[key]
           case Str(v) => v
           case Other => Value(Zones.WRONG_TYPE, ErrorText)
  }

  /** A waiting GET dispatch receives the reply to its command; without a reply it panics. */
  function Deliver(s: State, q: Queued, v: Value, fate: Fate): State {
    if q.waiter.None? || q.waiter.value !in s.tasks then s
    else
      var id := q.waiter.value;
      var t := s.tasks[id];
      if !t.Reading? then s
      else if fate.Lost? then Without(s, id)
      else
        match (t.stage, q.op)
        case (AskLocal, Get) => WithTask(s, id, t.(stage := GotLocal(v)))
        case (AskHome, Get) => WithTask(s, id, t.(stage := GotHome(v)))
        case (AskTtl(w), Ttl) => WithTask(s, id, t.(stage := GotTtl(w)))
        case _ => Without(s, id)
  }

  function Executed(s: State, z: bytes, fate: Fate): State
    requires z in s.zones && s.zones[z].queue != []
  {
    var zone := s.zones[z];
    var q := zone.queue[0];
    var v := Found(zone.store, q.key, fate);
    var store := if Applies(fate) then Applied(zone.store, q) else zone.store;
    var s1 := s.(zones := s.zones[z := Zone(store, zone.queue[1..])],
                 refusals := s.refusals + (if AnswersError(zone.store, q, fate) then {(q.key, v.text)} else {}),
                 lossy := s.lossy + (if q.op.Set? && !Applies(fate) then {(z, q.key)} else {}));
    Deliver(s1, q, v, fate)
  }

  predicate Enabled(s: State, step: Step) {
    match step
    case StartSet(r, key, _, _) => r in s.zones && Owner(s, key) == Some(r)
    case CopyTo(id, z, _) => id in s.tasks && s.tasks[id].Copying? && z in s.tasks[id].todo && z in s.zones
    case EndSet(id) => id in s.tasks && s.tasks[id].Copying?
    case StartGet(r, _) => r in s.zones
    case Proceed(id, _) => id in s.tasks && s.tasks[id].Reading? && s.tasks[id].router in s.zones
    case Execute(z, _) => z in s.zones && s.zones[z].queue != []
    case Expire(z, _) => z in s.zones
    case Elsewhere(z, cmd) => z in s.zones && Owner(s, cmd.key).None? && cmd.waiter.None?
  }

  function Next(s: State, step: Step): State
    requires Enabled(s, step)
  {
    match step
    case StartSet(r, key, text, dropped) =>
      var v := Value(text, Written(|s.log|));
      var s1 := s.(log := s.log + [Write(r, key, text)], next := s.next + 1,
                   tasks := s.tasks[s.next := Copying(r, key, v, s.zones.Keys - {r})]);
      if dropped then s1.(lossy := s1.lossy + {(r, key)}) else Push(s1, r, Queued(key, Set(v), None))
    case CopyTo(id, z, dropped) =>
      var t := s.tasks[id];
      var s1 := WithTask(s, id, t.(todo := t.todo - {z}));
      if dropped then s1.(lossy := s1.lossy + {(z, t.key)}) else Push(s1, z, Queued(t.key, Set(t.value), None))
    case EndSet(id) =>
      // all copies sent, or a nil connection panicked and the rest are never sent
      Without(s, id).(lossy := s.lossy + set z | z in s.tasks[id].todo :: (z, s.tasks[id].key))
    case StartGet(r, key) => Ask(s.(next := s.next + 1), s.next, Reading(r, key, AskLocal), r, Get, false)
    case Proceed(id, dropped) => Continue(s, id, s.tasks[id], dropped)
    case Execute(z, fate) => Executed(s, z, fate)
    case Expire(z, key) =>
      s.(zones := s.zones[z := s.zones[z].(store := s.zones[z].store - {key})], lossy := s.lossy + {(z, key)})
    case Elsewhere(z, cmd) => Push(s, z, cmd)
  }

  // ---------------------------------------------------------------- the steps of a dispatch, said on the zones

  /** The command is queued at the zone for the dispatch, and nothing else changes. */
  predicate Asks(s: State, s': State, id: nat, t: Task, z: bytes, op: Op) {
    && z in s.zones && s' == s.(tasks := s.tasks[id := t], zones := s'.zones)
    && s'.zones == s.zones[z := Zone(s.zones[z].store, s.zones[z].queue + [Queued(t.key, op, Some(id))])]
  }

  /**
   * A GET dispatch whose reply is there: an empty local value of a key that names another configured zone is looked up at
   * that zone; a value found there has its TTL asked for, and is then written to the dispatch's own zone. Otherwise, and
   * when its command is dropped, the dispatch is over.
   */
  lemma ReadThroughStages(s: State, id: nat, dropped: bool)
    requires id in s.tasks && s.tasks[id].Reading? && s.tasks[id].router in s.zones && s.sep != []
    ensures
      var t, s' := s.tasks[id], Next(s, Proceed(id, dropped));
      var home := Router.ZonePart(t.key, s.sep);
      var known := home.Some? && home.value in s.zones;
      match t.stage
      case GotLocal(v) =>
        if v.text == [] && known && home.value != t.router && !dropped
        then Asks(s, s', id, Reading(t.router, t.key, AskHome), home.value, Get)
        else s' == s.(tasks := s.tasks - {id})
      case GotHome(v) =>
        if v.text != [] && known && !dropped
        then Asks(s, s', id, Reading(t.router, t.key, AskTtl(v)), home.value, Ttl)
        else s' == s.(tasks := s.tasks - {id})
      case GotTtl(v) =>
        if !dropped then Asks(s, s', id, Reading(t.router, t.key, AskFill), t.router, Set(v))
        else s' == s.(tasks := s.tasks - {id})
      case _ => s' == s
  {
  }

  /** A client's GET asks the router's own zone first; its SET goes to that zone, which must be the key's, and to all others. */
  lemma Starts(s: State, r: bytes, key: bytes, text: bytes)
    requires r in s.zones && s.sep != []
    ensures Asks(s.(next := s.next + 1), Next(s, StartGet(r, key)), s.next, Reading(r, key, AskLocal), r, Get)
    ensures Enabled(s, StartSet(r, key, text, false)) <==> Router.ZonePart(key, s.sep) == Some(r)
    ensures Router.ZonePart(key, s.sep) == Some(r) ==>
      var s' := Next(s, StartSet(r, key, text, false));
      var v := Value(text, Written(|s.log|));
      && s'.log == s.log + [Write(r, key, text)]
      && s'.tasks == s.tasks[s.next := Copying(r, key, v, s.zones.Keys - {r})] && s'.next == s.next + 1
      && s'.zones == s.zones[r := Zone(s.zones[r].store, s.zones[r].queue + [Queued(key, Set(v), None)])]
  {
  }

  /** A copy goes to a zone that has had none, and no other zone is concerned. */
  lemma CopyGoes(s: State, id: nat, z: bytes)
    requires Enabled(s, CopyTo(id, z, false))
    ensures
      var t, s' := s.tasks[id], Next(s, CopyTo(id, z, false));
      && s'.tasks == s.tasks[id := Copying(t.router, t.key, t.value, t.todo - {z})]
      && s'.zones == s.zones[z := Zone(s.zones[z].store, s.zones[z].queue + [Queued(t.key, Set(t.value), None)])]
  {
  }

  /** What a server does with the oldest command, and when that counts as a loss. */
  lemma Serves(s: State, z: bytes, fate: Fate)
    requires Enabled(s, Execute(z, fate))
    ensures
      var q, s' := s.zones[z].queue[0], Next(s, Execute(z, fate));
      var runs := fate == Served || fate == Lost(true);
      && s'.zones.Keys == s.zones.Keys && s'.zones[z].queue == s.zones[z].queue[1..]
      && (forall x :: x in s.zones && x != z ==> s'.zones[x] == s.zones[x])
      && s'.zones[z].store == (
        if runs && q.op.Set? then s.zones[z].store[q.key := Str(q.op.value)]
        else if runs && q.op.Del? then s.zones[z].store - {q.key} else s.zones[z].store)
      && s'.lossy == s.lossy + if q.op.Set? && !runs then {(z, q.key)} else {}
  {
  }

  /** A dispatch that waits for the reply to a GET gets the text the server answers with; without a reply it is over. */
  lemma Delivers(s: State, z: bytes, fate: Fate, id: nat)
    requires Enabled(s, Execute(z, fate)) && s.zones[z].queue[0].waiter == Some(id) && s.zones[z].queue[0].op.Get?
    requires id in s.tasks && s.tasks[id].Reading? && (s.tasks[id].stage.AskLocal? || s.tasks[id].stage.AskHome?)
    ensures
      var q, t, s' := s.zones[z].queue[0], s.tasks[id], Next(s, Execute(z, fate));
      if fate.Lost? then s'.tasks == s.tasks - {id}
      else
        && id in s'.tasks && s'.tasks == s.tasks[id := s'.tasks[id]]
        && var text := if fate.Refused? then fate.text
                       else if q.key !in s.zones[z].store then []
                       else if s.zones[z].store[q.key].Str? then s.zones[z].store[q.key].value.text else Zones.WRONG_TYPE;
           exists v: Value :: v.text == text
             && s'.tasks[id] == Reading(t.router, t.key, if t.stage.AskLocal? then GotLocal(v) else GotHome(v))
  {
    var v := Found(s.zones[z].store, s.zones[z].queue[0].key, fate);
    if !fate.Lost? {
      var t := s.tasks[id];
      assert Next(s, Execute(z, fate)).tasks[id]
        == Reading(t.router, t.key, if t.stage.AskLocal? then GotLocal(v) else GotHome(v));
    }
  }

  /** The reply to a TTL lets the dispatch go on with the value it has, and the reply to its fill ends it. */
  lemma DeliversLater(s: State, z: bytes, fate: Fate, id: nat)
    requires Enabled(s, Execute(z, fate)) && s.zones[z].queue[0].waiter == Some(id) && id in s.tasks && s.tasks[id].Reading?
    ensures
      var q, t, s' := s.zones[z].queue[0], s.tasks[id], Next(s, Execute(z, fate));
      && (t.stage.AskTtl? && q.op.Ttl? && !fate.Lost? ==>
            s'.tasks == s.tasks[id := Reading(t.router, t.key, GotTtl(t.stage.v))])
      && (fate.Lost? || t.stage.AskFill? ==> s'.tasks == s.tasks - {id})
  {
  }

  predicate Run(s: State, steps: seq<Step>)
    decreases |steps|
  {
    steps == [] || (Enabled(s, steps[0]) && Run(Next(s, steps[0]), steps[1..]))
  }

  function After(s: State, steps: seq<Step>): State
    requires Run(s, steps)
    decreases |steps|
  {
    if steps == [] then s else After(Next(s, steps[0]), steps[1..])
  }

  // ---------------------------------------------------------------- where values come from

  /** The value of an owned key is one that key had initially, or was written through its owner, or is an error text. */
  ghost predicate Truthful(s0: State, log: seq<Write>, refusals: set<(bytes, bytes)>, key: bytes, v: Value) {
    Owner(s0, key).Some? ==>
      match v.origin
      case Initial => exists z :: z in s0.zones && key in s0.zones[z].store && s0.zones[z].store[key] == Str(v)
      case Written(n) => n < |log| && log[n] == Write(Owner(s0, key).value, key, v.text)
      case ErrorText => (key, v.text) in refusals
      case Unowned => false
  }

  ghost predicate ZoneTrue(s0: State, log: seq<Write>, refusals: set<(bytes, bytes)>, zone: Zone) {
    && (forall k :: k in zone.store && zone.store[k].Str? ==> Truthful(s0, log, refusals, k, zone.store[k].value))
    && (forall i :: 0 <= i < |zone.queue| && zone.queue[i].op.Set? ==>
          Truthful(s0, log, refusals, zone.queue[i].key, zone.queue[i].op.value))
  }

  ghost predicate TaskTrue(s0: State, log: seq<Write>, refusals: set<(bytes, bytes)>, t: Task) {
    match t
    case Copying(_, key, v, _) => Truthful(s0, log, refusals, key, v)
    case Reading(_, key, stage) =>
      match stage
      case GotLocal(v) => v.text == [] || Truthful(s0, log, refusals, key, v)
      case GotHome(v) => v.text == [] || Truthful(s0, log, refusals, key, v)
      case AskTtl(v) => Truthful(s0, log, refusals, key, v)
      case GotTtl(v) => Truthful(s0, log, refusals, key, v)
      case _ => true
  }

  ghost predicate Waits(tasks: map<nat, Task>, next: nat, queue: seq<Queued>) {
    forall i :: 0 <= i < |queue| && queue[i].waiter.Some? ==>
      && queue[i].waiter.value < next
      && (queue[i].waiter.value in tasks ==> tasks[queue[i].waiter.value].key == queue[i].key)
  }

  ghost predicate Inv(s0: State, s: State) {
    && s.sep == s0.sep && s.zones.Keys == s0.zones.Keys
    && (forall z :: z in s.zones ==> ZoneTrue(s0, s.log, s.refusals, s.zones[z]) && Waits(s.tasks, s.next, s.zones[z].queue))
    && (forall id :: id in s.tasks ==> id < s.next && TaskTrue(s0, s.log, s.refusals, s.tasks[id]))
  }

  lemma OwnerKept(s0: State, s: State, key: bytes)
    requires Inv(s0, s)
    ensures Owner(s, key) == Owner(s0, key)
  {
    hide ZoneTrue, TaskTrue, Waits;
  }

  /** More history makes nothing false. */
  lemma TruthGrows(s0: State, s: State, log: seq<Write>, refusals: set<(bytes, bytes)>)
    requires Inv(s0, s) && s.log <= log && s.refusals <= refusals
    ensures Inv(s0, s.(log := log, refusals := refusals))
  {
    hide Owner, Waits;
    forall key, v | Truthful(s0, s.log, s.refusals, key, v)
      ensures Truthful(s0, log, refusals, key, v)
    {
    }
  }

  lemma PushKeepsInv(s0: State, s: State, z: bytes, q: Queued)
    requires Inv(s0, s) && z in s.zones
    requires q.op.Set? ==> Truthful(s0, s.log, s.refusals, q.key, q.op.value)
    requires Waits(s.tasks, s.next, [q])
    ensures Inv(s0, Push(s, z, q))
  {
    hide Truthful, TaskTrue;
    var zone := Push(s, z, q).zones[z];
    assert [q][0] == q;
    assert ZoneTrue(s0, s.log, s.refusals, zone);
  }

  lemma WithTaskKeepsInv(s0: State, s: State, id: nat, t: Task)
    requires Inv(s0, s) && TaskTrue(s0, s.log, s.refusals, t)
    requires id in s.tasks && s.tasks[id].key == t.key
    ensures Inv(s0, WithTask(s, id, t))
  {
    hide ZoneTrue, TaskTrue;
  }

  lemma WithoutKeepsInv(s0: State, s: State, id: nat)
    requires Inv(s0, s)
    ensures Inv(s0, Without(s, id))
  {
    hide ZoneTrue, TaskTrue;
  }

  /** A dispatch starts: its number has not been used. */
  lemma NewTaskKeepsInv(s0: State, s: State, t: Task)
    requires Inv(s0, s) && TaskTrue(s0, s.log, s.refusals, t)
    ensures Inv(s0, s.(next := s.next + 1, tasks := s.tasks[s.next := t]))
  {
    hide ZoneTrue, TaskTrue;
  }

  lemma AskKeepsInv(s0: State, s: State, id: nat, t: Task, z: bytes, op: Op, dropped: bool)
    requires Inv(s0, s) && z in s.zones && id in s.tasks && s.tasks[id].key == t.key
    requires TaskTrue(s0, s.log, s.refusals, t)
    requires op.Set? ==> Truthful(s0, s.log, s.refusals, t.key, op.value)
    ensures Inv(s0, Ask(s, id, t, z, op, dropped))
  {
    hide Truthful, TaskTrue, ZoneTrue;
    if dropped {
      WithoutKeepsInv(s0, s, id);
    } else {
      WithTaskKeepsInv(s0, s, id, t);
      PushKeepsInv(s0, WithTask(s, id, t), z, Queued(t.key, op, Some(id)));
    }
  }

  lemma ContinueKeepsInv(s0: State, s: State, id: nat, dropped: bool)
    requires Inv(s0, s) && id in s.tasks && s.tasks[id].Reading? && s.tasks[id].router in s.zones
    ensures Inv(s0, Continue(s, id, s.tasks[id], dropped))
  {
    hide Truthful, ZoneTrue, Ask, Without, Waits;
    var t := s.tasks[id];
    var home := Owner(s, t.key);
    WithoutKeepsInv(s0, s, id);
    match t.stage
    case GotLocal(v) =>
      if home.Some? {
        AskKeepsInv(s0, s, id, t.(stage := AskHome), home.value, Get, dropped);
      }
    case GotHome(v) =>
      if v.text != [] && home.Some? {
        AskKeepsInv(s0, s, id, t.(stage := AskTtl(v)), home.value, Ttl, dropped);
      }
    case GotTtl(v) =>
      AskKeepsInv(s0, s, id, t.(stage := AskFill), t.router, Set(v), dropped);
    case _ =>
  }

  /** A reply is truthful about its key, or empty. */
  lemma FoundIsTrue(s0: State, s: State, z: bytes, q: Queued, fate: Fate, refusals: set<(bytes, bytes)>)
    requires Inv(s0, s) && z in s.zones && q.op.Get? && !fate.Lost?
    requires s.refusals <= refusals
    requires AnswersError(s.zones[z].store, q, fate) ==> (q.key, Found(s.zones[z].store, q.key, fate).text) in refusals
    ensures var v := Found(s.zones[z].store, q.key, fate); v.text == [] || Truthful(s0, s.log, refusals, q.key, v)
  {
    hide Owner, TaskTrue, Waits;
    var store := s.zones[z].store;
    if !fate.Refused? && q.key in store && store[q.key].Str? {
      assert Truthful(s0, s.log, s.refusals, q.key, store[q.key].value);
    }
  }

  lemma DeliverKeepsInv(s0: State, s: State, q: Queued, v: Value, fate: Fate)
    requires Inv(s0, s) && Waits(s.tasks, s.next, [q])
    requires q.op.Get? && !fate.Lost? ==> v.text == [] || Truthful(s0, s.log, s.refusals, q.key, v)
    ensures Inv(s0, Deliver(s, q, v, fate))
  {
    hide Truthful, ZoneTrue, Without, WithTask;
    assert [q][0] == q;
    if q.waiter.Some? && q.waiter.value in s.tasks {
      var id := q.waiter.value;
      var t := s.tasks[id];
      WithoutKeepsInv(s0, s, id);
      if !fate.Lost? && t.Reading? {
        assert TaskTrue(s0, s.log, s.refusals, t);
        match (t.stage, q.op)
        case (AskLocal, Get) => WithTaskKeepsInv(s0, s, id, t.(stage := GotLocal(v)));
        case (AskHome, Get) => WithTaskKeepsInv(s0, s, id, t.(stage := GotHome(v)));
        case (AskTtl(w), Ttl) => WithTaskKeepsInv(s0, s, id, t.(stage := GotTtl(w)));
        case _ =>
      }
    }
  }

  /** The store and the queue move on by one command. */
  lemma PopKeepsInv(s0: State, s: State, z: bytes, applies: bool)
    requires Inv(s0, s) && z in s.zones && s.zones[z].queue != []
    ensures
      var zone := s.zones[z];
      var q := zone.queue[0];
      Inv(s0, s.(zones := s.zones[z := Zone(if applies then Applied(zone.store, q) else zone.store, zone.queue[1..])]))
    ensures Waits(s.tasks, s.next, [s.zones[z].queue[0]])
  {
    hide Truthful, TaskTrue;
    var zone := s.zones[z];
    var q := zone.queue[0];
    assert ZoneTrue(s0, s.log, s.refusals, zone) && Waits(s.tasks, s.next, zone.queue);
    var store := if applies then Applied(zone.store, q) else zone.store;
    assert ZoneTrue(s0, s.log, s.refusals, Zone(store, zone.queue[1..]));
    assert Waits(s.tasks, s.next, zone.queue[1..]);
  }

  lemma ExecutedKeepsInv(s0: State, s: State, z: bytes, fate: Fate)
    requires Inv(s0, s) && z in s.zones && s.zones[z].queue != []
    ensures Inv(s0, Executed(s, z, fate))
  {
    hide Inv, Truthful, Deliver, Waits, Found, Applied;
    var zone := s.zones[z];
    var q := zone.queue[0];
    var v := Found(zone.store, q.key, fate);
    var refusals := s.refusals + if AnswersError(zone.store, q, fate) then {(q.key, v.text)} else {};
    var lossy := s.lossy + if q.op.Set? && !Applies(fate) then {(z, q.key)} else {};
    if q.op.Get? && !fate.Lost? {
      FoundIsTrue(s0, s, z, q, fate, refusals);
    }
    PopKeepsInv(s0, s, z, Applies(fate));
    var s1 := s.(zones := s.zones[z := Zone(if Applies(fate) then Applied(zone.store, q) else zone.store, zone.queue[1..])]);
    TruthGrows(s0, s1, s1.log, refusals);
    LossKeepsInv(s0, s1.(refusals := refusals), lossy);
    DeliverKeepsInv(s0, s1.(refusals := refusals, lossy := lossy), q, v, fate);
  }

  lemma LossKeepsInv(s0: State, s: State, lossy: set<(bytes, bytes)>)
    requires Inv(s0, s)
    ensures Inv(s0, s.(lossy := lossy))
  {
  }

  lemma StartSetKeepsInv(s0: State, s: State, r: bytes, key: bytes, text: bytes, dropped: bool)
    requires Inv(s0, s) && Enabled(s, StartSet(r, key, text, dropped))
    ensures Inv(s0, Next(s, StartSet(r, key, text, dropped)))
  {
    hide Inv, Push;
    OwnerKept(s0, s, key);
    var v := Value(text, Written(|s.log|));
    var log := s.log + [Write(r, key, text)];
    TruthGrows(s0, s, log, s.refusals);
    var s1 := s.(log := log, refusals := s.refusals);
    assert Truthful(s0, log, s.refusals, key, v);
    var t := Copying(r, key, v, s.zones.Keys - {r});
    NewTaskKeepsInv(s0, s1, t);
    var s2 := s1.(next := s1.next + 1, tasks := s1.tasks[s1.next := t]);
    if dropped {
      LossKeepsInv(s0, s2, s2.lossy + {(r, key)});
    } else {
      PushKeepsInv(s0, s2, r, Queued(key, Set(v), None));
    }
  }

  lemma CopyKeepsInv(s0: State, s: State, id: nat, z: bytes, dropped: bool)
    requires Inv(s0, s) && Enabled(s, CopyTo(id, z, dropped))
    ensures Inv(s0, Next(s, CopyTo(id, z, dropped)))
  {
    hide Truthful, ZoneTrue, Push;
    var t := s.tasks[id];
    assert TaskTrue(s0, s.log, s.refusals, t);
    WithTaskKeepsInv(s0, s, id, t.(todo := t.todo - {z}));
    var s1 := WithTask(s, id, t.(todo := t.todo - {z}));
    if dropped {
      LossKeepsInv(s0, s1, s1.lossy + {(z, t.key)});
    } else {
      PushKeepsInv(s0, s1, z, Queued(t.key, Set(t.value), None));
    }
  }

  lemma ExpireKeepsInv(s0: State, s: State, z: bytes, key: bytes)
    requires Inv(s0, s) && z in s.zones
    ensures Inv(s0, s.(zones := s.zones[z := s.zones[z].(store := s.zones[z].store - {key})]))
  {
    hide Truthful, TaskTrue, Waits;
    assert ZoneTrue(s0, s.log, s.refusals, s.zones[z].(store := s.zones[z].store - {key}));
  }

  lemma StepKeepsInv(s0: State, s: State, step: Step)
    requires Inv(s0, s) && Enabled(s, step)
    ensures Inv(s0, Next(s, step))
  {
    hide Truthful, ZoneTrue, Push, Without, Executed, Continue;
    match step
    case StartSet(r, key, text, dropped) => StartSetKeepsInv(s0, s, r, key, text, dropped);
    case CopyTo(id, z, dropped) => CopyKeepsInv(s0, s, id, z, dropped);
    case EndSet(id) =>
      WithoutKeepsInv(s0, s, id);
      LossKeepsInv(s0, Without(s, id), Next(s, step).lossy);
    case StartGet(r, key) =>
      NewTaskKeepsInv(s0, s, Reading(r, key, AskLocal));
      var s1 := s.(next := s.next + 1, tasks := s.tasks[s.next := Reading(r, key, AskLocal)]);
      PushKeepsInv(s0, s1, r, Queued(key, Get, Some(s.next)));
      assert s1 == WithTask(s.(next := s.next + 1), s.next, Reading(r, key, AskLocal));
    case Proceed(id, dropped) => ContinueKeepsInv(s0, s, id, dropped);
    case Execute(z, fate) => ExecutedKeepsInv(s0, s, z, fate);
    case Expire(z, key) =>
      ExpireKeepsInv(s0, s, z, key);
      LossKeepsInv(s0, s.(zones := s.zones[z := s.zones[z].(store := s.zones[z].store - {key})]), Next(s, step).lossy);
    case Elsewhere(z, cmd) =>
      OwnerKept(s0, s, cmd.key);
      assert Truthful(s0, s.log, s.refusals, cmd.key, if cmd.op.Set? then cmd.op.value else Value([], Unowned)) by {
        NotOwned(s0, s.log, s.refusals, cmd.key, if cmd.op.Set? then cmd.op.value else Value([], Unowned));
      }
      PushKeepsInv(s0, s, z, cmd);
  }

  lemma NotOwned(s0: State, log: seq<Write>, refusals: set<(bytes, bytes)>, key: bytes, v: Value)
    requires Owner(s0, key).None?
    ensures Truthful(s0, log, refusals, key, v)
  {
  }

  lemma {:induction false} RunKeepsInv(s0: State, s: State, steps: seq<Step>)
    requires Inv(s0, s) && Run(s, steps)
    ensures Inv(s0, After(s, steps))
    decreases |steps|
  {
    hide Inv, Enabled, Next;
    if steps != [] {
      StepKeepsInv(s0, s, steps[0]);
      RunKeepsInv(s0, Next(s, steps[0]), steps[1..]);
    }
  }

  /**
   * Zone ownership, over every run: whatever zone holds a string for a key of a configured zone, it is a string that
   * key had initially, or one that a client wrote through that zone's own router, or the text of an error reply.
   */
  lemma ZoneOwnership(s0: State, steps: seq<Step>, z: bytes, key: bytes)
    requires Init(s0) && Run(s0, steps) && Owner(s0, key).Some?
    requires z in After(s0, steps).zones && key in After(s0, steps).zones[z].store
    requires After(s0, steps).zones[z].store[key].Str?
    ensures
      var s := After(s0, steps);
      var v := s.zones[z].store[key].value;
      || (exists z0 :: z0 in s0.zones && key in s0.zones[z0].store && s0.zones[z0].store[key] == Str(v))
      || (exists n :: 0 <= n < |s.log| && s.log[n] == Write(Owner(s0, key).value, key, v.text))
      || (key, v.text) in s.refusals
  {
    hide Owner;
    assert Inv(s0, s0);
    RunKeepsInv(s0, s0, steps);
    var s := After(s0, steps);
    assert ZoneTrue(s0, s.log, s.refusals, s.zones[z]);
    assert Truthful(s0, s.log, s.refusals, key, s.zones[z].store[key].value);
  }
}
