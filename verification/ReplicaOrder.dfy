/**
 * The copies of one key, when the SETs of it are dispatched one at a time and no read-through fills in a value that has
 * been overwritten meanwhile: every zone sees the owner's writes in the owner's order, and all agree once they have been
 * executed. GETs of the key are free, and so are fills of its newest value.
 */
module ReplicaOrder {
  import opened Bytes
  import opened Wrappers
  import opened Replication

  /** A value's place in the history of writes; what the key held at first comes before all of them. */
  function Serial(v: Value): nat {
    if v.origin.Written? then v.origin.n + 1 else 0
  }

  predicate Sets(q: Queued, key: bytes) {
    q.op.Set? && q.key == key
  }

  predicate Holds(zone: Zone, key: bytes) {
    key in zone.store && zone.store[key].Str?
  }

  function Held(zone: Zone, key: bytes): Value
    requires Holds(zone, key)
  {
    zone.store[key].value
  }

  /** The number of the last write of a key. */
  function Last(log: seq<Write>, key: bytes): (n: Option<nat>)
    ensures n.Some? ==> n.value < |log| && log[n.value].key == key
  {
    if log == [] then None
    else if log[|log| - 1].key == key then Some(|log| - 1)
    else Last(log[..|log| - 1], key)
  }

  /** The place of the key's newest value. */
  function Newest(log: seq<Write>, key: bytes): (m: nat)
    ensures m <= |log|
  {
    match Last(log, key)
    case None => 0
    case Some(n) => n + 1
  }

  /** The dispatch of a GET of the key is about to forward a fill, with a value that is no longer the newest. */
  predicate FillsStale(s: State, step: Step, key: bytes) {
    && step.Proceed? && !step.dropped && step.id in s.tasks
    && s.tasks[step.id].Reading? && s.tasks[step.id].key == key && s.tasks[step.id].stage.GotTtl?
    && Serial(s.tasks[step.id].stage.v) != Newest(s.log, key)
  }

  /** A SET of the key is dispatched only when no other one is. */
  predicate OneSet(s: State, step: Step, key: bytes) {
    step.StartSet? && step.key == key ==> forall id :: id in s.tasks && s.tasks[id].Copying? ==> s.tasks[id].key != key
  }

  predicate Orderly(s: State, step: Step, key: bytes) {
    OneSet(s, step, key) && !FillsStale(s, step, key)
  }

  predicate OrderlyRun(s: State, steps: seq<Step>, key: bytes): (r: bool)
    ensures r ==> Run(s, steps)
    decreases |steps|
  {
    steps == [] ||
    (Enabled(s, steps[0]) && Orderly(s, steps[0], key) && OrderlyRun(Next(s, steps[0]), steps[1..], key))
  }

  // ---------------------------------------------------------------- one zone

  predicate AllUpTo(zone: Zone, key: bytes, m: nat) {
    && (Holds(zone, key) ==> Serial(Held(zone, key)) <= m)
    && (forall i :: 0 <= i < |zone.queue| && Sets(zone.queue[i], key) ==> Serial(zone.queue[i].op.value) <= m)
  }

  predicate AllFrom(zone: Zone, key: bytes, a: nat) {
    && (Holds(zone, key) ==> a <= Serial(Held(zone, key)))
    && (forall i :: 0 <= i < |zone.queue| && Sets(zone.queue[i], key) ==> a <= Serial(zone.queue[i].op.value))
  }

  /** Store, then queue front to back: no write of the key is earlier than the one before. */
  predicate Increasing(zone: Zone, key: bytes) {
    && (Holds(zone, key) ==> forall i :: 0 <= i < |zone.queue| && Sets(zone.queue[i], key) ==>
          Serial(Held(zone, key)) <= Serial(zone.queue[i].op.value))
    && (forall i, j :: 0 <= i < j < |zone.queue| && Sets(zone.queue[i], key) && Sets(zone.queue[j], key) ==>
          Serial(zone.queue[i].op.value) <= Serial(zone.queue[j].op.value))
  }

  /** The write is in the zone's store, or on its way there. */
  ghost predicate Has(zone: Zone, key: bytes, n: nat) {
    || (Holds(zone, key) && Held(zone, key).origin == Written(n))
    || (exists i :: 0 <= i < |zone.queue| && Sets(zone.queue[i], key) && zone.queue[i].op.value.origin == Written(n))
  }

  predicate NoDel(zone: Zone, key: bytes) {
    forall i :: 0 <= i < |zone.queue| && zone.queue[i].key == key ==> !zone.queue[i].op.Del?
  }

  ghost predicate ZoneInv(zone: Zone, key: bytes, newest: nat) {
    Increasing(zone, key) && AllUpTo(zone, key, newest) && NoDel(zone, key)
  }

  /** What a zone may do on its own: nothing new about the key arrives, and nothing is lost unless it says so. */
  ghost predicate Quiet(zone: Zone, zone': Zone, key: bytes, lossy: bool) {
    && (Increasing(zone, key) ==> Increasing(zone', key))
    && (forall m: nat :: AllUpTo(zone, key, m) ==> AllUpTo(zone', key, m))
    && (forall a: nat :: AllFrom(zone, key, a) ==> AllFrom(zone', key, a))
    && (NoDel(zone, key) ==> NoDel(zone', key))
    && (forall n: nat :: !lossy && ZoneInv(zone, key, n + 1) && Has(zone, key, n) ==> Has(zone', key, n))
  }

  lemma PushIsQuiet(zone: Zone, q: Queued, key: bytes)
    requires !Sets(q, key) && (q.key == key ==> !q.op.Del?)
    ensures Quiet(zone, zone.(queue := zone.queue + [q]), key, false)
  {
    var zone' := zone.(queue := zone.queue + [q]);
    forall n: nat | Has(zone, key, n)
      ensures Has(zone', key, n)
    {
      if !(Holds(zone, key) && Held(zone, key).origin == Written(n)) {
        var i :| 0 <= i < |zone.queue| && Sets(zone.queue[i], key) && zone.queue[i].op.value.origin == Written(n);
        assert zone'.queue[i] == zone.queue[i];
      }
    }
  }

  /** The oldest command has been executed, or has not. */
  predicate Popped(zone: Zone, zone': Zone) {
    zone.queue != [] && zone'.queue == zone.queue[1..] &&
    (zone'.store == zone.store || zone'.store == Applied(zone.store, zone.queue[0]))
  }

  lemma PopBounds(zone: Zone, zone': Zone, key: bytes, m: nat, a: nat)
    requires Popped(zone, zone')
    ensures AllUpTo(zone, key, m) ==> AllUpTo(zone', key, m)
    ensures AllFrom(zone, key, a) ==> AllFrom(zone', key, a)
  {
    if Holds(zone', key) {
      assert Holds(zone, key) || Sets(zone.queue[0], key);
    }
  }

  lemma PopOrder(zone: Zone, zone': Zone, key: bytes)
    requires Popped(zone, zone')
    ensures Increasing(zone, key) ==> Increasing(zone', key)
    ensures NoDel(zone, key) ==> NoDel(zone', key)
  {
    if Holds(zone', key) {
      assert Holds(zone, key) || Sets(zone.queue[0], key);
    }
    assert forall i :: 0 <= i < |zone'.queue| ==> zone'.queue[i] == zone.queue[i + 1];
  }

  lemma PopKeeps(zone: Zone, zone': Zone, key: bytes, n: nat)
    requires Popped(zone, zone') && ZoneInv(zone, key, n + 1) && Has(zone, key, n)
    requires Sets(zone.queue[0], key) ==> zone'.store == Applied(zone.store, zone.queue[0])
    ensures Has(zone', key, n)
  {
    var q := zone.queue[0];
    if Holds(zone, key) && Held(zone, key).origin == Written(n) {
      if Sets(q, key) {
        // nothing is newer, so this is the same write
        assert Serial(q.op.value) == n + 1;
        assert Holds(zone', key) && Held(zone', key) == q.op.value;
      } else {
        assert zone'.store == zone.store || q.key != key || !q.op.Del?;
        assert Holds(zone', key) && Held(zone', key) == Held(zone, key);
      }
    } else {
      var i :| 0 <= i < |zone.queue| && Sets(zone.queue[i], key) && zone.queue[i].op.value.origin == Written(n);
      if i == 0 {
        assert Holds(zone', key) && Held(zone', key) == q.op.value;
      } else {
        assert zone'.queue[i - 1] == zone.queue[i];
      }
    }
  }

  lemma PopIsQuiet(zone: Zone, zone': Zone, key: bytes)
    requires Popped(zone, zone')
    ensures Quiet(zone, zone', key, Sets(zone.queue[0], key) && zone'.store != Applied(zone.store, zone.queue[0]))
  {
    hide Applied, Increasing, AllUpTo, AllFrom, NoDel, Has, ZoneInv;
    PopOrder(zone, zone', key);
    forall m: nat
      ensures AllUpTo(zone, key, m) ==> AllUpTo(zone', key, m)
      ensures AllFrom(zone, key, m) ==> AllFrom(zone', key, m)
    {
      PopBounds(zone, zone', key, m, m);
    }
    if !Sets(zone.queue[0], key) || zone'.store == Applied(zone.store, zone.queue[0]) {
      forall n: nat | ZoneInv(zone, key, n + 1) && Has(zone, key, n)
        ensures Has(zone', key, n)
      {
        PopKeeps(zone, zone', key, n);
      }
    }
  }

  lemma ExpireIsQuiet(zone: Zone, x: bytes, key: bytes)
    ensures Quiet(zone, zone.(store := zone.store - {x}), key, x == key)
  {
    var zone' := zone.(store := zone.store - {x});
    if x != key {
      assert Holds(zone', key) == Holds(zone, key);
      assert forall n: nat :: Has(zone, key, n) ==> Has(zone', key, n);
    }
  }

  /** The newest value arrives at the end of the queue, for the first time or again. */
  lemma NewestArrives(zone: Zone, key: bytes, v: Value, waiter: Option<nat>)
    requires ZoneInv(zone, key, Serial(v))
    ensures
      var zone' := zone.(queue := zone.queue + [Queued(key, Set(v), waiter)]);
      && ZoneInv(zone', key, Serial(v))
      && (v.origin.Written? ==> Has(zone', key, v.origin.n))
      && (forall n: nat :: Has(zone, key, n) ==> Has(zone', key, n))
      && (forall a: nat :: a <= Serial(v) && AllFrom(zone, key, a) ==> AllFrom(zone', key, a))
  {
    var zone' := zone.(queue := zone.queue + [Queued(key, Set(v), waiter)]);
    assert zone'.queue[|zone.queue|].op.value == v;
    forall n: nat | Has(zone, key, n)
      ensures Has(zone', key, n)
    {
      if !(Holds(zone, key) && Held(zone, key).origin == Written(n)) {
        var i :| 0 <= i < |zone.queue| && Sets(zone.queue[i], key) && zone.queue[i].op.value.origin == Written(n);
        assert zone'.queue[i] == zone.queue[i];
      }
    }
  }

  // ---------------------------------------------------------------- all zones

  predicate IsCopier(t: Task, key: bytes) {
    t.Copying? && t.key == key
  }

  /** The copies of the key still to be forwarded carry its last write. */
  predicate CopierInv(s: State, key: bytes, t: Task) {
    IsCopier(t, key) ==> Last(s.log, key).Some? && t.value.origin == Written(Last(s.log, key).value)
  }

  ghost predicate Placed(s: State, key: bytes, z: bytes, n: nat)
    requires z in s.zones
  {
    || Has(s.zones[z], key, n)
    || (z, key) in s.lossy
    || exists id :: id in s.tasks && IsCopier(s.tasks[id], key) && z in s.tasks[id].todo
  }

  ghost predicate OrderInv(s: State, key: bytes) {
    && Owner(s, key).Some?
    && (forall z :: z in s.zones ==> ZoneInv(s.zones[z], key, Newest(s.log, key)))
    && (forall id :: id in s.tasks ==> id < s.next && CopierInv(s, key, s.tasks[id]))
    && (forall i, j :: i in s.tasks && j in s.tasks && IsCopier(s.tasks[i], key) && IsCopier(s.tasks[j], key) ==> i == j)
    && (Last(s.log, key).Some? ==> forall z :: z in s.zones ==> Placed(s, key, z, Last(s.log, key).value))
  }

  /** Everything at this zone or on its way there was written no earlier than a. */
  ghost predicate From(s: State, key: bytes, z: bytes, a: nat) {
    && z in s.zones && a <= Newest(s.log, key) && AllFrom(s.zones[z], key, a)
    && (forall id :: id in s.tasks && IsCopier(s.tasks[id], key) && z in s.tasks[id].todo ==>
          a <= Serial(s.tasks[id].value))
  }

  /** A step that writes nothing to the key. */
  ghost predicate Elsewise(s: State, s': State, key: bytes) {
    && s'.sep == s.sep && s'.zones.Keys == s.zones.Keys && s.next <= s'.next
    && Last(s'.log, key) == Last(s.log, key) && |s.log| <= |s'.log| && s.lossy <= s'.lossy
    && (forall z :: z in s.zones ==> Quiet(s.zones[z], s'.zones[z], key, (z, key) in s'.lossy))
    && (forall id :: id in s.tasks && IsCopier(s.tasks[id], key) ==> id in s'.tasks && s'.tasks[id] == s.tasks[id])
    && (forall id :: id in s'.tasks && IsCopier(s'.tasks[id], key) ==> id in s.tasks && s'.tasks[id] == s.tasks[id])
    && (forall id :: id in s'.tasks ==> id < s'.next)
  }

  lemma ElsewiseKeepsOrder(s: State, s': State, key: bytes)
    requires OrderInv(s, key) && Elsewise(s, s', key)
    ensures OrderInv(s', key)
    ensures forall z, a: nat :: From(s, key, z, a) ==> From(s', key, z, a)
  {
    hide Increasing, AllUpTo, AllFrom, NoDel, Has, Last;
    forall z | z in s.zones
      ensures ZoneInv(s'.zones[z], key, Newest(s'.log, key))
      ensures Last(s'.log, key).Some? ==> Placed(s', key, z, Last(s'.log, key).value)
    {
      assert ZoneInv(s.zones[z], key, Newest(s.log, key)) && Quiet(s.zones[z], s'.zones[z], key, (z, key) in s'.lossy);
    }
    forall id | id in s'.tasks
      ensures CopierInv(s', key, s'.tasks[id])
    {
      if IsCopier(s'.tasks[id], key) {
        assert CopierInv(s, key, s.tasks[id]);
      }
    }
  }

  // ---------------------------------------------------------------- steps that write nothing to the key

  lemma QuietSelf(zone: Zone, key: bytes, lossy: bool)
    ensures Quiet(zone, zone, key, lossy)
  {
  }

  /** All zones but one stay as they are. */
  lemma ZoneIsElse(s: State, z: bytes, zone': Zone, lossy: set<(bytes, bytes)>, key: bytes)
    requires OrderInv(s, key) && z in s.zones && s.lossy <= lossy
    requires Quiet(s.zones[z], zone', key, (z, key) in lossy)
    ensures Elsewise(s, s.(zones := s.zones[z := zone'], lossy := lossy), key)
  {
    hide Quiet, CopierInv, Placed, ZoneInv, Last;
    forall x | x in s.zones
      ensures Quiet(s.zones[x], s.zones[z := zone'][x], key, (x, key) in lossy)
    {
      QuietSelf(s.zones[x], key, (x, key) in lossy);
    }
  }

  lemma PushIsElse(s: State, z: bytes, q: Queued, key: bytes)
    requires OrderInv(s, key) && z in s.zones && !Sets(q, key) && (q.key == key ==> !q.op.Del?)
    ensures Elsewise(s, Push(s, z, q), key)
  {
    hide Quiet, OrderInv;
    PushIsQuiet(s.zones[z], q, key);
    WeakerLoss(s.zones[z], s.zones[z].(queue := s.zones[z].queue + [q]), key, (z, key) in s.lossy);
    ZoneIsElse(s, z, s.zones[z].(queue := s.zones[z].queue + [q]), s.lossy, key);
    assert Push(s, z, q) == s.(zones := s.zones[z := s.zones[z].(queue := s.zones[z].queue + [q])], lossy := s.lossy);
  }

  lemma WeakerLoss(zone: Zone, zone': Zone, key: bytes, lossy: bool)
    requires Quiet(zone, zone', key, false)
    ensures Quiet(zone, zone', key, lossy)
  {
  }

  /** A dispatch that is not copying the key moves on. */
  lemma TaskIsElse(s: State, id: nat, t: Task, key: bytes)
    requires OrderInv(s, key) && id in s.tasks && !IsCopier(s.tasks[id], key) && !IsCopier(t, key)
    ensures Elsewise(s, WithTask(s, id, t), key)
  {
    hide Quiet, CopierInv, Placed, ZoneInv, Last;
    forall x | x in s.zones
      ensures Quiet(s.zones[x], s.zones[x], key, (x, key) in s.lossy)
    {
      QuietSelf(s.zones[x], key, (x, key) in s.lossy);
    }
  }

  lemma WithoutIsElse(s: State, id: nat, key: bytes)
    requires OrderInv(s, key) && (id in s.tasks ==> !IsCopier(s.tasks[id], key))
    ensures Elsewise(s, Without(s, id), key)
  {
    hide Quiet, CopierInv, Placed, ZoneInv, Last;
    forall x | x in s.zones
      ensures Quiet(s.zones[x], s.zones[x], key, (x, key) in s.lossy)
    {
      QuietSelf(s.zones[x], key, (x, key) in s.lossy);
    }
  }

  lemma NewTaskIsElse(s: State, t: Task, log: seq<Write>, key: bytes)
    requires OrderInv(s, key) && !IsCopier(t, key)
    requires Last(log, key) == Last(s.log, key) && |s.log| <= |log|
    ensures Elsewise(s, s.(log := log, next := s.next + 1, tasks := s.tasks[s.next := t]), key)
  {
    hide Quiet, CopierInv, Placed, ZoneInv, Last;
    forall x | x in s.zones
      ensures Quiet(s.zones[x], s.zones[x], key, (x, key) in s.lossy)
    {
      QuietSelf(s.zones[x], key, (x, key) in s.lossy);
    }
  }

  lemma HistoryIsElse(s: State, refusals: set<(bytes, bytes)>, lossy: set<(bytes, bytes)>, key: bytes)
    requires OrderInv(s, key) && s.lossy <= lossy
    ensures Elsewise(s, s.(refusals := refusals, lossy := lossy), key)
  {
    hide Quiet, CopierInv, Placed, ZoneInv, Last;
    forall x | x in s.zones
      ensures Quiet(s.zones[x], s.zones[x], key, (x, key) in lossy)
    {
      QuietSelf(s.zones[x], key, (x, key) in lossy);
    }
  }

  /** What every step has to keep, and does when it is made of parts that write nothing to the key. */
  ghost predicate Keeps(s: State, s': State, key: bytes) {
    OrderInv(s', key) && forall z, a: nat :: From(s, key, z, a) ==> From(s', key, z, a)
  }

  lemma ElseKeeps(s: State, s1: State, s2: State, key: bytes)
    requires Keeps(s, s1, key) && Elsewise(s1, s2, key)
    ensures Keeps(s, s2, key)
  {
    hide OrderInv, From, Elsewise;
    ElsewiseKeepsOrder(s1, s2, key);
  }

  lemma AskKeeps(s: State, id: nat, t: Task, z: bytes, op: Op, dropped: bool, key: bytes)
    requires OrderInv(s, key) && id in s.tasks && t.Reading? && s.tasks[id].Reading? && z in s.zones
    requires !op.Del? && (op.Set? && t.key == key ==> dropped)
    ensures Keeps(s, Ask(s, id, t, z, op, dropped), key)
  {
    hide OrderInv, Elsewise, From;
    if dropped {
      WithoutIsElse(s, id, key);
      ElseKeeps(s, s, Without(s, id), key);
    } else {
      var s1 := WithTask(s, id, t);
      TaskIsElse(s, id, t, key);
      ElseKeeps(s, s, s1, key);
      PushIsElse(s1, z, Queued(t.key, op, Some(id)), key);
      ElseKeeps(s, s1, Push(s1, z, Queued(t.key, op, Some(id))), key);
    }
  }

  lemma ContinueKeeps(s: State, id: nat, dropped: bool, key: bytes)
    requires OrderInv(s, key) && id in s.tasks && s.tasks[id].Reading? && s.tasks[id].router in s.zones
    requires !FillsStale(s, Proceed(id, dropped), key)
    ensures Keeps(s, Continue(s, id, s.tasks[id], dropped), key)
  {
    hide OrderInv, Elsewise, From, Ask, Without;
    var t := s.tasks[id];
    var home := Owner(s, t.key);
    WithoutIsElse(s, id, key);
    Refl(s, key);
    ElseKeeps(s, s, Without(s, id), key);
    match t.stage
    case GotLocal(v) =>
      if home.Some? {
        AskKeeps(s, id, t.(stage := AskHome), home.value, Get, dropped, key);
      }
    case GotHome(v) =>
      if home.Some? {
        AskKeeps(s, id, t.(stage := AskTtl(v)), home.value, Ttl, dropped, key);
      }
    case GotTtl(v) =>
      if t.key == key && !dropped {
        FillKeeps(s, id, t.(stage := AskFill), v, key);
      } else {
        AskKeeps(s, id, t.(stage := AskFill), t.router, Set(v), dropped, key);
      }
    case _ =>
  }

  /** A fill that carries the newest value is queued again where it may be already. */
  lemma FillKeeps(s: State, id: nat, t: Task, v: Value, key: bytes)
    requires OrderInv(s, key) && id in s.tasks && t.Reading? && s.tasks[id].Reading? && t.router in s.zones
    requires t.key == key && Serial(v) == Newest(s.log, key)
    ensures Keeps(s, Ask(s, id, t, t.router, Set(v), false), key)
  {
    hide OrderInv, Elsewise, From, Keeps;
    var s1 := WithTask(s, id, t);
    Refl(s, key);
    TaskIsElse(s, id, t, key);
    ElseKeeps(s, s, s1, key);
    KeepsInv(s, s1, key);
    NewestKeeps(s, s1, t.router, v, Some(id), key);
  }

  lemma NewestKeeps(s: State, s1: State, z: bytes, v: Value, waiter: Option<nat>, key: bytes)
    requires Keeps(s, s1, key) && z in s1.zones && Serial(v) == Newest(s1.log, key)
    ensures Keeps(s, Push(s1, z, Queued(key, Set(v), waiter)), key)
  {
    hide Increasing, AllUpTo, AllFrom, NoDel, Has, Newest, Last;
    var s2 := Push(s1, z, Queued(key, Set(v), waiter));
    assert ZoneInv(s1.zones[z], key, Newest(s1.log, key));
    NewestArrives(s1.zones[z], key, v, waiter);
    forall id | id in s2.tasks
      ensures CopierInv(s2, key, s2.tasks[id])
    {
      assert CopierInv(s1, key, s1.tasks[id]);
    }
    if Last(s2.log, key).Some? {
      forall x | x in s2.zones
        ensures Placed(s2, key, x, Last(s2.log, key).value)
      {
        assert Placed(s1, key, x, Last(s1.log, key).value);
      }
    }
    forall x, a: nat | From(s, key, x, a)
      ensures From(s2, key, x, a)
    {
      assert From(s1, key, x, a);
    }
  }

  lemma DeliverKeeps(s: State, q: Queued, v: Value, fate: Fate, key: bytes)
    requires OrderInv(s, key)
    ensures Keeps(s, Deliver(s, q, v, fate), key)
  {
    hide ZoneInv, Placed, CopierInv, Elsewise, From, Without, WithTask;
    if q.waiter.Some? && q.waiter.value in s.tasks && s.tasks[q.waiter.value].Reading? {
      var id := q.waiter.value;
      var t := s.tasks[id];
      WithoutIsElse(s, id, key);
      ElseKeeps(s, s, Without(s, id), key);
      if !fate.Lost? {
        match (t.stage, q.op)
        case (AskLocal, Get) =>
          TaskIsElse(s, id, t.(stage := GotLocal(v)), key);
          ElseKeeps(s, s, WithTask(s, id, t.(stage := GotLocal(v))), key);
        case (AskHome, Get) =>
          TaskIsElse(s, id, t.(stage := GotHome(v)), key);
          ElseKeeps(s, s, WithTask(s, id, t.(stage := GotHome(v))), key);
        case (AskTtl(w), Ttl) =>
          TaskIsElse(s, id, t.(stage := GotTtl(w)), key);
          ElseKeeps(s, s, WithTask(s, id, t.(stage := GotTtl(w))), key);
        case _ =>
      }
    }
  }

  lemma ExecutedKeeps(s: State, z: bytes, fate: Fate, key: bytes)
    requires OrderInv(s, key) && z in s.zones && s.zones[z].queue != []
    ensures Keeps(s, Executed(s, z, fate), key)
  {
    hide OrderInv, Elsewise, From, Quiet, Deliver, Found, Applied, Keeps;
    var zone := s.zones[z];
    var q := zone.queue[0];
    var v := Found(zone.store, q.key, fate);
    var refusals := s.refusals + if AnswersError(zone.store, q, fate) then {(q.key, v.text)} else {};
    var lossy := s.lossy + if q.op.Set? && !Applies(fate) then {(z, q.key)} else {};
    var zone' := Zone(if Applies(fate) then Applied(zone.store, q) else zone.store, zone.queue[1..]);
    PopIsQuiet(zone, zone', key);
    PopLoss(zone, zone', key, Applies(fate), (z, key) in lossy);
    Refl(s, key);
    ZoneIsElse(s, z, zone', lossy, key);
    var s1 := s.(zones := s.zones[z := zone'], lossy := lossy);
    ElseKeeps(s, s, s1, key);
    HistoryElse(s, s1, refusals, key);
    var s2 := s1.(refusals := refusals, lossy := s1.lossy);
    DeliverAfter(s, s2, q, v, fate, key);
  }

  lemma Refl(s: State, key: bytes)
    requires OrderInv(s, key)
    ensures Keeps(s, s, key)
  {
  }

  lemma PopLoss(zone: Zone, zone': Zone, key: bytes, applies: bool, lossy: bool)
    requires zone.queue != []
    requires Quiet(zone, zone', key, Sets(zone.queue[0], key) && zone'.store != Applied(zone.store, zone.queue[0]))
    requires applies ==> zone'.store == Applied(zone.store, zone.queue[0])
    requires !applies && Sets(zone.queue[0], key) ==> lossy
    ensures Quiet(zone, zone', key, lossy)
  {
    hide Increasing, AllUpTo, AllFrom, NoDel, Has, ZoneInv, Applied;
  }

  lemma HistoryElse(s: State, s1: State, refusals: set<(bytes, bytes)>, key: bytes)
    requires Keeps(s, s1, key)
    ensures Keeps(s, s1.(refusals := refusals, lossy := s1.lossy), key)
  {
    hide OrderInv, Elsewise, From;
    HistoryIsElse(s1, refusals, s1.lossy, key);
    ElseKeeps(s, s1, s1.(refusals := refusals, lossy := s1.lossy), key);
  }

  lemma DeliverAfter(s: State, s2: State, q: Queued, v: Value, fate: Fate, key: bytes)
    requires Keeps(s, s2, key)
    ensures Keeps(s, Deliver(s2, q, v, fate), key)
  {
    hide OrderInv, From, Deliver;
    DeliverKeeps(s2, q, v, fate, key);
  }

  // ---------------------------------------------------------------- steps that write the key

  lemma LastOfAppend(log: seq<Write>, w: Write, key: bytes)
    ensures Last(log + [w], key) == if w.key == key then Some(|log|) else Last(log, key)
  {
    assert (log + [w])[..|log|] == log;
  }

  lemma BoundGrows(zone: Zone, key: bytes, m: nat, n: nat)
    requires ZoneInv(zone, key, m) && m <= n
    ensures ZoneInv(zone, key, n)
  {
  }

  /** A client's SET of the key: every other zone is still to be sent a copy. */
  lemma StartSetOrder(s: State, key: bytes, text: bytes, dropped: bool)
    requires OrderInv(s, key) && Owner(s, key).Some?
    requires forall id :: id in s.tasks ==> !IsCopier(s.tasks[id], key)
    ensures OrderInv(Next(s, StartSet(Owner(s, key).value, key, text, dropped)), key)
  {
    hide Last, Has, Increasing, AllUpTo, NoDel, ZoneInv, Newest;
    var r := Owner(s, key).value;
    var n := |s.log|;
    var v := Value(text, Written(n));
    var s' := Next(s, StartSet(r, key, text, dropped));
    LastOfAppend(s.log, Write(r, key, text), key);
    NewestOfLast(s'.log, key);
    forall z | z in s.zones
      ensures ZoneInv(s.zones[z], key, n + 1)
    {
      BoundGrows(s.zones[z], key, Newest(s.log, key), n + 1);
    }
    NewestArrives(s.zones[r], key, v, None);
    forall z | z in s'.zones
      ensures ZoneInv(s'.zones[z], key, n + 1) && Placed(s', key, z, n)
    {
      if z != r {
        assert s.next in s'.tasks && IsCopier(s'.tasks[s.next], key) && z in s'.tasks[s.next].todo;
      }
    }
    StartSetTasks(s, s', key);
  }

  lemma NewestOfLast(log: seq<Write>, key: bytes)
    requires Last(log, key).Some?
    ensures Newest(log, key) == Last(log, key).value + 1
  {
  }

  lemma StartSetTasks(s: State, s': State, key: bytes)
    requires OrderInv(s, key) && forall id :: id in s.tasks ==> !IsCopier(s.tasks[id], key)
    requires s'.sep == s.sep && s'.zones.Keys == s.zones.Keys && s'.next == s.next + 1
    requires Last(s'.log, key) == Some(|s.log|) && s.next in s'.tasks && s'.tasks[s.next].Copying?
    requires s'.tasks == s.tasks[s.next := s'.tasks[s.next]]
    requires s'.tasks[s.next].value.origin == Written(|s.log|)
    ensures forall id :: id in s'.tasks ==>
      id < s'.next && CopierInv(s', key, s'.tasks[id])
  {
    hide Last, Has, Increasing, AllUpTo, NoDel;
  }

  lemma StartSetFrom(s: State, key: bytes, text: bytes, dropped: bool, z: bytes, a: nat)
    requires OrderInv(s, key) && Owner(s, key).Some? && From(s, key, z, a)
    ensures From(Next(s, StartSet(Owner(s, key).value, key, text, dropped)), key, z, a)
  {
    hide Increasing, AllUpTo, NoDel, CopierInv, Placed, Last;
    var s' := Next(s, StartSet(Owner(s, key).value, key, text, dropped));
    LastOfAppend(s.log, Write(Owner(s, key).value, key, text), key);
    NewestOfLast(s'.log, key);
    forall i | 0 <= i < |s'.zones[z].queue| && Sets(s'.zones[z].queue[i], key)
      ensures a <= Serial(s'.zones[z].queue[i].op.value)
    {
      if i < |s.zones[z].queue| {
        assert s'.zones[z].queue[i] == s.zones[z].queue[i];
      }
    }
  }

  /** A copy of the key's last write is forwarded. */
  lemma CopyOrder(s: State, id: nat, z: bytes, dropped: bool, key: bytes)
    requires OrderInv(s, key) && Enabled(s, CopyTo(id, z, dropped)) && s.tasks[id].key == key
    ensures OrderInv(Next(s, CopyTo(id, z, dropped)), key)
  {
    hide Last, Has, Increasing, AllUpTo, NoDel, Newest;
    var t := s.tasks[id];
    assert CopierInv(s, key, t);
    NewestOfLast(s.log, key);
    var n := Last(s.log, key).value;
    var s' := Next(s, CopyTo(id, z, dropped));
    assert ZoneInv(s.zones[z], key, n + 1);
    NewestArrives(s.zones[z], key, t.value, None);
    forall x | x in s'.zones
      ensures Placed(s', key, x, n)
    {
      assert Placed(s, key, x, n);
      if x != z && exists i :: i in s.tasks && IsCopier(s.tasks[i], key) && x in s.tasks[i].todo {
        assert IsCopier(s'.tasks[id], key) && x in s'.tasks[id].todo;
      }
    }
    forall i | i in s'.tasks
      ensures CopierInv(s', key, s'.tasks[i])
    {
      assert CopierInv(s, key, s.tasks[i]);
    }
  }

  lemma CopyFrom(s: State, id: nat, z: bytes, dropped: bool, key: bytes, x: bytes, a: nat)
    requires OrderInv(s, key) && Enabled(s, CopyTo(id, z, dropped)) && s.tasks[id].key == key && From(s, key, x, a)
    ensures From(Next(s, CopyTo(id, z, dropped)), key, x, a)
  {
    hide OrderInv;
    var s' := Next(s, CopyTo(id, z, dropped));
    forall i | 0 <= i < |s'.zones[x].queue| && Sets(s'.zones[x].queue[i], key)
      ensures a <= Serial(s'.zones[x].queue[i].op.value)
    {
      if i < |s.zones[x].queue| {
        assert s'.zones[x].queue[i] == s.zones[x].queue[i];
      }
    }
  }

  /** The dispatch of a SET of the key is over; copies it never sent are counted as lost. */
  lemma EndSetOrder(s: State, id: nat, key: bytes)
    requires OrderInv(s, key) && Enabled(s, EndSet(id)) && s.tasks[id].key == key
    ensures Keeps(s, Next(s, EndSet(id)), key)
  {
    hide Last, Has, Increasing, AllUpTo, NoDel, AllFrom;
    var s' := Next(s, EndSet(id));
    assert CopierInv(s, key, s.tasks[id]);
    var n := Last(s.log, key).value;
    forall x | x in s'.zones
      ensures Placed(s', key, x, n)
    {
      assert Placed(s, key, x, n);
      if x in s.tasks[id].todo {
        assert (x, key) in s'.lossy;
      }
    }
    forall i | i in s'.tasks
      ensures CopierInv(s', key, s'.tasks[i])
    {
      assert CopierInv(s, key, s.tasks[i]);
    }
  }

  // ---------------------------------------------------------------- every step

  lemma StartOtherSetKeeps(s: State, r: bytes, x: bytes, text: bytes, dropped: bool, key: bytes)
    requires OrderInv(s, key) && Enabled(s, StartSet(r, x, text, dropped)) && x != key
    ensures Keeps(s, Next(s, StartSet(r, x, text, dropped)), key)
  {
    hide OrderInv, From, Elsewise, Owner, Last, Keeps, IsCopier;
    var w := Write(r, x, text);
    var v := Value(text, Written(|s.log|));
    var t := Copying(r, x, v, s.zones.Keys - {r});
    LastOfAppend(s.log, w, key);
    CopyOfOther(s, t, key);
    NewTaskIsElse(s, t, s.log + [w], key);
    var s1 := s.(log := s.log + [w], next := s.next + 1, tasks := s.tasks[s.next := t]);
    Refl(s, key);
    ElseKeeps(s, s, s1, key);
    KeepsInv(s, s1, key);
    if dropped {
      HistoryIsElse(s1, s1.refusals, s1.lossy + {(r, x)}, key);
      ElseKeeps(s, s1, s1.(refusals := s1.refusals, lossy := s1.lossy + {(r, x)}), key);
    } else {
      PushIsElse(s1, r, Queued(x, Set(v), None), key);
      ElseKeeps(s, s1, Push(s1, r, Queued(x, Set(v), None)), key);
    }
  }

  lemma CopyOfOther(s: State, t: Task, key: bytes)
    requires t.Copying? && t.key != key
    ensures !IsCopier(t, key)
  {
  }

  lemma StartSetKeeps(s: State, step: Step, key: bytes)
    requires OrderInv(s, key) && step.StartSet? && Enabled(s, step) && Orderly(s, step, key)
    ensures Keeps(s, Next(s, step), key)
  {
    var StartSet(r, x, text, dropped) := step;
    hide OrderInv, From, Elsewise, Next;
    if x == key {
      StartSetOrder(s, key, text, dropped);
      forall z, a: nat | From(s, key, z, a)
        ensures From(Next(s, step), key, z, a)
      {
        StartSetFrom(s, key, text, dropped, z, a);
      }
    } else {
      StartOtherSetKeeps(s, r, x, text, dropped, key);
    }
  }

  lemma CopyKeeps(s: State, step: Step, key: bytes)
    requires OrderInv(s, key) && step.CopyTo? && Enabled(s, step)
    ensures Keeps(s, Next(s, step), key)
  {
    var CopyTo(id, z, dropped) := step;
    hide OrderInv, From, Elsewise;
    var t := s.tasks[id];
    if t.key == key {
      CopyOrder(s, id, z, dropped, key);
      forall x, a: nat | From(s, key, x, a)
        ensures From(Next(s, step), key, x, a)
      {
        CopyFrom(s, id, z, dropped, key, x, a);
      }
    } else {
      var t' := t.(todo := t.todo - {z});
      TaskIsElse(s, id, t', key);
      var s1 := WithTask(s, id, t');
      Refl(s, key);
      ElseKeeps(s, s, s1, key);
      if dropped {
        HistoryIsElse(s1, s1.refusals, s1.lossy + {(z, t.key)}, key);
        ElseKeeps(s, s1, s1.(refusals := s1.refusals, lossy := s1.lossy + {(z, t.key)}), key);
      } else {
        PushIsElse(s1, z, Queued(t.key, Set(t.value), None), key);
        ElseKeeps(s, s1, Push(s1, z, Queued(t.key, Set(t.value), None)), key);
      }
    }
  }

  lemma StepKeepsOrder(s: State, step: Step, key: bytes)
    requires OrderInv(s, key) && Enabled(s, step) && Orderly(s, step, key)
    ensures Keeps(s, Next(s, step), key)
  {
    hide OrderInv, From, Elsewise, Owner, Executed, Continue, Keeps;
    Refl(s, key);
    match step
    case StartSet(_, _, _, _) => StartSetKeeps(s, step, key);
    case CopyTo(_, _, _) => CopyKeeps(s, step, key);
    case EndSet(id) =>
      if s.tasks[id].key == key {
        EndSetOrder(s, id, key);
      } else {
        WithoutIsElse(s, id, key);
        ElseKeeps(s, s, Without(s, id), key);
        KeepsInv(s, Without(s, id), key);
        HistoryIsElse(Without(s, id), s.refusals, Next(s, step).lossy, key);
        ElseKeeps(s, Without(s, id), Without(s, id).(refusals := s.refusals, lossy := Next(s, step).lossy), key);
      }
    case StartGet(r, x) =>
      NewTaskIsElse(s, Reading(r, x, AskLocal), s.log, key);
      var s1 := s.(log := s.log, next := s.next + 1, tasks := s.tasks[s.next := Reading(r, x, AskLocal)]);
      ElseKeeps(s, s, s1, key);
      KeepsInv(s, s1, key);
      PushIsElse(s1, r, Queued(x, Get, Some(s.next)), key);
      ElseKeeps(s, s1, Push(s1, r, Queued(x, Get, Some(s.next))), key);
    case Proceed(id, dropped) => ContinueKeeps(s, id, dropped, key);
    case Execute(z, fate) => ExecutedKeeps(s, z, fate, key);
    case Expire(z, x) =>
      var zone' := s.zones[z].(store := s.zones[z].store - {x});
      ExpireIsQuiet(s.zones[z], x, key);
      ExpireLoss(s.zones[z], zone', key, x == key, (z, key) in s.lossy + {(z, x)});
      ZoneIsElse(s, z, zone', s.lossy + {(z, x)}, key);
      ElseKeeps(s, s, s.(zones := s.zones[z := zone'], lossy := s.lossy + {(z, x)}), key);
    case Elsewhere(z, cmd) =>
      OwnedKey(s, key);
      PushIsElse(s, z, cmd, key);
      ElseKeeps(s, s, Push(s, z, cmd), key);
  }

  lemma KeepsInv(s: State, s': State, key: bytes)
    requires Keeps(s, s', key)
    ensures OrderInv(s', key)
  {
  }

  lemma OwnedKey(s: State, key: bytes)
    requires OrderInv(s, key)
    ensures Owner(s, key).Some?
  {
  }

  lemma ExpireLoss(zone: Zone, zone': Zone, key: bytes, lossy: bool, more: bool)
    requires Quiet(zone, zone', key, lossy) && (lossy ==> more)
    ensures Quiet(zone, zone', key, more)
  {
  }

  lemma InitOrder(s: State, key: bytes)
    requires Init(s) && Owner(s, key).Some?
    ensures OrderInv(s, key)
  {
  }

  lemma {:induction false} RunKeepsOrder(s: State, steps: seq<Step>, key: bytes)
    requires OrderInv(s, key) && OrderlyRun(s, steps, key)
    ensures Keeps(s, After(s, steps), key)
    decreases |steps|
  {
    hide OrderInv, From, Enabled, Next, Orderly;
    if steps != [] {
      StepKeepsOrder(s, steps[0], key);
      RunKeepsOrder(Next(s, steps[0]), steps[1..], key);
    }
  }

  // ---------------------------------------------------------------- theorems

  /** A zone's copy only moves forward through the owner's writes, over any stretch of any such run. */
  lemma CopiesMoveForward(s0: State, before: seq<Step>, after: seq<Step>, z: bytes, key: bytes)
    requires Init(s0) && Owner(s0, key).Some? && OrderlyRun(s0, before, key)
    requires OrderlyRun(After(s0, before), after, key)
    requires z in After(s0, before).zones && Holds(After(s0, before).zones[z], key)
    ensures
      var s := After(After(s0, before), after);
      && z in s.zones
      && (Holds(s.zones[z], key) ==>
            Serial(Held(After(s0, before).zones[z], key)) <= Serial(Held(s.zones[z], key)))
  {
    hide OrderlyRun, Run, After, Init, Owner;
    InitOrder(s0, key);
    RunKeepsOrder(s0, before, key);
    var s1 := After(s0, before);
    HeldIsFirst(s1, key, z);
    RunKeepsOrder(s1, after, key);
    assert From(After(s1, after), key, z, Serial(Held(s1.zones[z], key)));
  }

  lemma HeldIsFirst(s: State, key: bytes, z: bytes)
    requires OrderInv(s, key) && z in s.zones && Holds(s.zones[z], key)
    ensures From(s, key, z, Serial(Held(s.zones[z], key)))
  {
    var zone := s.zones[z];
    assert ZoneInv(zone, key, Newest(s.log, key));
    forall id | id in s.tasks && IsCopier(s.tasks[id], key) && z in s.tasks[id].todo
      ensures Serial(Held(zone, key)) <= Serial(s.tasks[id].value)
    {
      assert CopierInv(s, key, s.tasks[id]);
    }
  }

  /** No SET of the key is still queued at the zone or waiting to be copied, and none was lost there. */
  predicate Settled(s: State, z: bytes, key: bytes) {
    && z in s.zones
    && (z, key) !in s.lossy
    && (forall i :: 0 <= i < |s.zones[z].queue| ==> !Sets(s.zones[z].queue[i], key))
    && (forall id :: id in s.tasks ==> !IsCopier(s.tasks[id], key))
  }

  lemma LastWriteIsHeld(s0: State, s: State, z: bytes, key: bytes)
    requires OrderInv(s, key) && Inv(s0, s) && Settled(s, z, key) && Last(s.log, key).Some?
    ensures Holds(s.zones[z], key) && Held(s.zones[z], key).text == s.log[Last(s.log, key).value].text
  {
    hide Last, ZoneInv, CopierInv, TaskTrue, Waits;
    OwnerKept(s0, s, key);
    assert Placed(s, key, z, Last(s.log, key).value);
    assert ZoneTrue(s0, s.log, s.refusals, s.zones[z]);
    assert Truthful(s0, s.log, s.refusals, key, Held(s.zones[z], key));
  }

  lemma InitInv(s0: State)
    requires Init(s0)
    ensures Inv(s0, s0)
  {
  }

  /** Once its SETs are executed, a zone holds the key's last write, as its owner's clients wrote it. */
  lemma SettledCopyIsLastWrite(s0: State, steps: seq<Step>, z: bytes, key: bytes)
    requires Init(s0) && Owner(s0, key).Some? && OrderlyRun(s0, steps, key)
    requires Settled(After(s0, steps), z, key) && Last(After(s0, steps).log, key).Some?
    ensures
      var s := After(s0, steps);
      && Holds(s.zones[z], key)
      && Held(s.zones[z], key).text == s.log[Last(s.log, key).value].text
  {
    hide OrderlyRun, Run, After, Init, Inv, OrderInv, From;
    InitOrder(s0, key);
    RunKeepsOrder(s0, steps, key);
    InitInv(s0);
    RunKeepsInv(s0, s0, steps);
    LastWriteIsHeld(s0, After(s0, steps), z, key);
  }

  /** All settled zones agree with the owner. */
  lemma SettledCopiesAgree(s0: State, steps: seq<Step>, z: bytes, key: bytes)
    requires Init(s0) && Owner(s0, key).Some? && OrderlyRun(s0, steps, key)
    requires Settled(After(s0, steps), z, key) && Settled(After(s0, steps), Owner(s0, key).value, key)
    requires Last(After(s0, steps).log, key).Some?
    ensures
      var s := After(s0, steps);
      var home := s.zones[Owner(s0, key).value];
      Holds(s.zones[z], key) && Holds(home, key) && Held(s.zones[z], key).text == Held(home, key).text
  {
    hide *;
    SettledCopyIsLastWrite(s0, steps, z, key);
    SettledCopyIsLastWrite(s0, steps, Owner(s0, key).value, key);
  }
}
