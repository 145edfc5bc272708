/**
 * Why ReplicaOrder asks for one SET of a key at a time: the SET branch of dispatch takes no lock, so two sessions of
 * the owner's router can interleave their copies. One run of two zones, spelled out.
 */
module ReplicaDivergence {
  import opened Bytes
  import opened Wrappers
  import opened Replication
  import opened ReplicaOrder
  import Router

  const KEY: bytes := [97, 58, 107]
  const A: bytes := [97]
  const B: bytes := [98]
  const V: Value := Value([1], Written(0))
  const W: Value := Value([2], Written(1))

  /** Zones a and b, and the separator ":". */
  function TwoZones(tasks: map<nat, Task>, next: nat, log: seq<Write>, a: Zone, b: Zone): (s: State)
    ensures s.zones.Keys == {A, B}
  {
    State([58], map[A := a, B := b], tasks, next, log, {}, {})
  }

  function Copies(first: set<bytes>, second: set<bytes>): map<nat, Task> {
    map[0 := Copying(A, KEY, V, first), 1 := Copying(A, KEY, W, second)]
  }

  function Stored(v: Value, queue: seq<Queued>): Zone {
    Zone(map[KEY := Str(v)], queue)
  }

  function Sent(v: Value): Queued {
    Queued(KEY, Set(v), None)
  }

  const FIRST: Write := Write(A, KEY, [1])
  const SECOND: Write := Write(A, KEY, [2])
  const NOTHING: Zone := Zone(map[], [])

  lemma OwnerOfKey(s: State)
    requires s.sep == [58] && s.zones.Keys == {A, B}
    ensures Owner(s, KEY) == Some(A)
  {
    assert !Router.OccursAt(KEY, [58], 0) && Router.OccursAt(KEY, [58], 1);
    assert KEY[..1] == A;
  }

  lemma Update(tasks: map<nat, Task>, next: nat, log: seq<Write>, a: Zone, b: Zone, c: Zone)
    ensures var s := TwoZones(tasks, next, log, a, b);
      && s.(zones := s.zones[A := c]) == TwoZones(tasks, next, log, c, b)
      && s.(zones := s.zones[B := c]) == TwoZones(tasks, next, log, a, c)
  {
    var s := TwoZones(tasks, next, log, a, b);
    assert s.zones[A := c] == map[A := c, B := b];
    assert s.zones[B := c] == map[A := a, B := c];
  }

  predicate Leads(s: State, step: Step, s': State) {
    Enabled(s, step) && Next(s, step) == s'
  }

  lemma FirstStarts()
    ensures
      Leads(TwoZones(map[], 0, [], NOTHING, NOTHING), StartSet(A, KEY, [1], false),
            TwoZones(map[0 := Copying(A, KEY, V, {B})], 1, [FIRST], Zone(map[], [Sent(V)]), NOTHING))
  {
    OwnerOfKey(TwoZones(map[], 0, [], NOTHING, NOTHING));
    assert {A, B} - {A} == {B};
    Update(map[0 := Copying(A, KEY, V, {B})], 1, [FIRST], NOTHING, NOTHING, Zone(map[], [Sent(V)]));
    assert [] + [Sent(V)] == [Sent(V)] && [] + [FIRST] == [FIRST];
  }

  lemma SecondStarts()
    ensures
      Leads(TwoZones(map[0 := Copying(A, KEY, V, {B})], 1, [FIRST], Zone(map[], [Sent(V)]), NOTHING),
            StartSet(A, KEY, [2], false),
            TwoZones(Copies({B}, {B}), 2, [FIRST, SECOND], Zone(map[], [Sent(V), Sent(W)]), NOTHING))
  {
    OwnerOfKey(TwoZones(map[0 := Copying(A, KEY, V, {B})], 1, [FIRST], Zone(map[], [Sent(V)]), NOTHING));
    assert {A, B} - {A} == {B};
    Update(Copies({B}, {B}), 2, [FIRST, SECOND], Zone(map[], [Sent(V)]), NOTHING, Zone(map[], [Sent(V), Sent(W)]));
    assert [Sent(V)] + [Sent(W)] == [Sent(V), Sent(W)] && [FIRST] + [SECOND] == [FIRST, SECOND];
    assert map[0 := Copying(A, KEY, V, {B})][1 := Copying(A, KEY, W, {B})] == Copies({B}, {B});
  }

  /** The copy of the second write overtakes the copy of the first. */
  lemma SecondOvertakes(a: Zone)
    ensures
      Leads(TwoZones(Copies({B}, {B}), 2, [FIRST, SECOND], a, NOTHING), CopyTo(1, B, false),
            TwoZones(Copies({B}, {}), 2, [FIRST, SECOND], a, Zone(map[], [Sent(W)])))
    ensures
      Leads(TwoZones(Copies({B}, {}), 2, [FIRST, SECOND], a, Zone(map[], [Sent(W)])), CopyTo(0, B, false),
            TwoZones(Copies({}, {}), 2, [FIRST, SECOND], a, Zone(map[], [Sent(W), Sent(V)])))
  {
    Update(Copies({B}, {}), 2, [FIRST, SECOND], a, NOTHING, Zone(map[], [Sent(W)]));
    Update(Copies({}, {}), 2, [FIRST, SECOND], a, Zone(map[], [Sent(W)]), Zone(map[], [Sent(W), Sent(V)]));
    assert {B} - {B} == {};
    assert [] + [Sent(W)] == [Sent(W)] && [Sent(W)] + [Sent(V)] == [Sent(W), Sent(V)];
    assert Copies({B}, {B})[1 := Copying(A, KEY, W, {})] == Copies({B}, {});
    assert Copies({B}, {})[0 := Copying(A, KEY, V, {})] == Copies({}, {});
  }

  lemma BothEnd(a: Zone, b: Zone)
    ensures
      Leads(TwoZones(Copies({}, {}), 2, [FIRST, SECOND], a, b), EndSet(0),
            TwoZones(map[1 := Copying(A, KEY, W, {})], 2, [FIRST, SECOND], a, b))
    ensures
      Leads(TwoZones(map[1 := Copying(A, KEY, W, {})], 2, [FIRST, SECOND], a, b), EndSet(1),
            TwoZones(map[], 2, [FIRST, SECOND], a, b))
  {
    var tasks: map<nat, Task> := map[1 := Copying(A, KEY, W, {})];
    assert Copies({}, {}) - {0} == tasks && tasks - {1} == map[];
  }

  /** The server of a zone executes a SET that nobody waits for. */
  lemma AExecutes(tasks: map<nat, Task>, next: nat, log: seq<Write>, store: map<bytes, Entry>, v: Value,
                  rest: seq<Queued>, other: Zone)
    ensures
      Leads(TwoZones(tasks, next, log, Zone(store, [Sent(v)] + rest), other), Execute(A, Served),
            TwoZones(tasks, next, log, Zone(store[KEY := Str(v)], rest), other))
  {
    var zone := Zone(store, [Sent(v)] + rest);
    assert zone.queue[1..] == rest;
    Update(tasks, next, log, zone, other, Zone(store[KEY := Str(v)], rest));
  }

  lemma BExecutes(tasks: map<nat, Task>, next: nat, log: seq<Write>, store: map<bytes, Entry>, v: Value,
                  rest: seq<Queued>, other: Zone)
    ensures
      Leads(TwoZones(tasks, next, log, other, Zone(store, [Sent(v)] + rest)), Execute(B, Served),
            TwoZones(tasks, next, log, other, Zone(store[KEY := Str(v)], rest)))
  {
    var zone := Zone(store, [Sent(v)] + rest);
    assert zone.queue[1..] == rest;
    Update(tasks, next, log, other, zone, Zone(store[KEY := Str(v)], rest));
  }

  lemma {:induction false} OneMore(s: State, step: Step, s1: State, steps: seq<Step>)
    requires Leads(s, step, s1) && Run(s1, steps)
    ensures Run(s, [step] + steps) && After(s, [step] + steps) == After(s1, steps)
  {
    hide Next, Enabled;
    assert ([step] + steps)[1..] == steps;
  }

  lemma BothExecute(v: Value, w: Value, other: Zone)
    ensures
      var s := TwoZones(map[], 2, [FIRST, SECOND], Zone(map[], [Sent(v), Sent(w)]), other);
      var steps := [Execute(A, Served), Execute(A, Served)];
      Run(s, steps) && After(s, steps) == TwoZones(map[], 2, [FIRST, SECOND], Stored(w, []), other)
    ensures
      var s := TwoZones(map[], 2, [FIRST, SECOND], other, Zone(map[], [Sent(v), Sent(w)]));
      var steps := [Execute(B, Served), Execute(B, Served)];
      Run(s, steps) && After(s, steps) == TwoZones(map[], 2, [FIRST, SECOND], other, Stored(w, []))
  {
    hide Next, Enabled, TwoZones;
    var log := [FIRST, SECOND];
    var both, one, none := Zone(map[], [Sent(v), Sent(w)]), Stored(v, [Sent(w)]), Stored(w, []);
    assert [Sent(v)] + [Sent(w)] == [Sent(v), Sent(w)] && [Sent(w)] + [] == [Sent(w)];
    assert map[][KEY := Str(v)] == map[KEY := Str(v)] && map[KEY := Str(v)][KEY := Str(w)] == map[KEY := Str(w)];
    AExecutes(map[], 2, log, map[], v, [Sent(w)], other);
    AExecutes(map[], 2, log, map[KEY := Str(v)], w, [], other);
    BExecutes(map[], 2, log, map[], v, [Sent(w)], other);
    BExecutes(map[], 2, log, map[KEY := Str(v)], w, [], other);
    OneMore(TwoZones(map[], 2, log, one, other), Execute(A, Served), TwoZones(map[], 2, log, none, other), []);
    OneMore(TwoZones(map[], 2, log, both, other), Execute(A, Served), TwoZones(map[], 2, log, one, other), [Execute(A, Served)]);
    OneMore(TwoZones(map[], 2, log, other, one), Execute(B, Served), TwoZones(map[], 2, log, other, none), []);
    OneMore(TwoZones(map[], 2, log, other, both), Execute(B, Served), TwoZones(map[], 2, log, other, one), [Execute(B, Served)]);
    assert [Execute(A, Served)] + [] == [Execute(A, Served)] && [Execute(B, Served)] + [] == [Execute(B, Served)];
    assert [Execute(A, Served)] + [Execute(A, Served)] == [Execute(A, Served), Execute(A, Served)];
    assert [Execute(B, Served)] + [Execute(B, Served)] == [Execute(B, Served), Execute(B, Served)];
  }

  lemma {:induction false} Then(s: State, first: seq<Step>, second: seq<Step>)
    requires Run(s, first) && Run(After(s, first), second)
    ensures Run(s, first + second) && After(s, first + second) == After(After(s, first), second)
    decreases |first|
  {
    hide Next, Enabled;
    if first == [] {
      assert first + second == second;
    } else {
      assert (first + second)[1..] == first[1..] + second;
      Then(Next(s, first[0]), first[1..], second);
    }
  }

  /** Dispatches overlap, and copies overtake each other. */
  lemma CopiesOvertake()
    ensures
      var s0 := TwoZones(map[], 0, [], NOTHING, NOTHING);
      var steps := [StartSet(A, KEY, [1], false), StartSet(A, KEY, [2], false), CopyTo(1, B, false), CopyTo(0, B, false),
                    EndSet(0), EndSet(1)];
      Run(s0, steps) &&
      After(s0, steps) == TwoZones(map[], 2, [FIRST, SECOND], Zone(map[], [Sent(V), Sent(W)]), Zone(map[], [Sent(W), Sent(V)]))
  {
    hide Next, Enabled, TwoZones, Copies;
    var a, b := Zone(map[], [Sent(V), Sent(W)]), Zone(map[], [Sent(W), Sent(V)]);
    var log := [FIRST, SECOND];
    var s0 := TwoZones(map[], 0, [], NOTHING, NOTHING);
    var s1 := TwoZones(map[0 := Copying(A, KEY, V, {B})], 1, [FIRST], Zone(map[], [Sent(V)]), NOTHING);
    var s2 := TwoZones(Copies({B}, {B}), 2, log, a, NOTHING);
    var s3 := TwoZones(Copies({B}, {}), 2, log, a, Zone(map[], [Sent(W)]));
    var s4 := TwoZones(Copies({}, {}), 2, log, a, b);
    var s5 := TwoZones(map[1 := Copying(A, KEY, W, {})], 2, log, a, b);
    FirstStarts();
    SecondStarts();
    SecondOvertakes(a);
    BothEnd(a, b);
    var e1, e0, c0, c1 := [EndSet(1)], [EndSet(0), EndSet(1)], [CopyTo(0, B, false), EndSet(0), EndSet(1)],
      [CopyTo(1, B, false), CopyTo(0, B, false), EndSet(0), EndSet(1)];
    OneMore(s5, EndSet(1), TwoZones(map[], 2, log, a, b), []);
    assert [EndSet(1)] + [] == e1;
    OneMore(s4, EndSet(0), s5, e1);
    assert [EndSet(0)] + e1 == e0;
    OneMore(s3, CopyTo(0, B, false), s4, e0);
    assert [CopyTo(0, B, false)] + e0 == c0;
    OneMore(s2, CopyTo(1, B, false), s3, c0);
    assert [CopyTo(1, B, false)] + c0 == c1;
    OneMore(s1, StartSet(A, KEY, [2], false), s2, c1);
    OneMore(s0, StartSet(A, KEY, [1], false), s1, [StartSet(A, KEY, [2], false)] + c1);
  }

  /**
   * Two SETs of one key dispatched at once, by two sessions of the owner's router: their copies can reach another zone
   * in the other order, and then the zones disagree for good although nothing was lost.
   */
  lemma OverlappingSetsDiverge() returns (s0: State, steps: seq<Step>)
    ensures Init(s0) && Owner(s0, KEY) == Some(A) && Run(s0, steps)
    ensures forall i :: 0 <= i < |steps| ==> !steps[i].StartGet?
    ensures
      var s := After(s0, steps);
      && s.tasks == map[] && Settled(s, A, KEY) && Settled(s, B, KEY)
      && Holds(s.zones[A], KEY) && Held(s.zones[A], KEY).text == [2]
      && Holds(s.zones[B], KEY) && Held(s.zones[B], KEY).text == [1]
  {
    hide Run, After, Next, Enabled;
    s0 := TwoZones(map[], 0, [], NOTHING, NOTHING);
    OwnerOfKey(s0);
    var overtaking := [StartSet(A, KEY, [1], false), StartSet(A, KEY, [2], false), CopyTo(1, B, false),
                       CopyTo(0, B, false), EndSet(0), EndSet(1)];
    var atA, atB := [Execute(A, Served), Execute(A, Served)], [Execute(B, Served), Execute(B, Served)];
    steps := overtaking + atA + atB;
    var done := TwoZones(map[], 2, [FIRST, SECOND], Stored(W, []), Stored(V, []));
    assert Run(s0, steps) && After(s0, steps) == done by {
      hide *;
      CopiesOvertake();
      BothExecute(V, W, Zone(map[], [Sent(W), Sent(V)]));
      BothExecute(W, V, Stored(W, []));
      Then(s0, overtaking, atA);
      Then(s0, overtaking + atA, atB);
    }
  }
}
