/**
 * Why ReplicaOrder asks for no stale fill of the key: a read-through that fetched a value before the owner's next SET
 * can write it over the copy of that SET. One run of two zones, with the SETs one at a time.
 */
module ReplicaStaleFill {
  import opened Bytes
  import opened Wrappers
  import opened Replication
  import opened ReplicaOrder
  import opened ReplicaDivergence

  /** A run in which SETs of the key are dispatched one at a time; fills are free. */
  predicate SerialRun(s: State, steps: seq<Step>, key: bytes): (r: bool)
    ensures r ==> Run(s, steps)
    decreases |steps|
  {
    steps == [] ||
    (Enabled(s, steps[0]) && OneSet(s, steps[0], key) && SerialRun(Next(s, steps[0]), steps[1..], key))
  }

  predicate Path(s: State, steps: seq<Step>, s': State) {
    SerialRun(s, steps, KEY) && After(s, steps) == s'
  }

  lemma Here(s: State)
    ensures Path(s, [], s)
  {
  }

  lemma Before(s: State, step: Step, s1: State, steps: seq<Step>, s2: State)
    requires Leads(s, step, s1) && OneSet(s, step, KEY) && Path(s1, steps, s2)
    ensures Path(s, [step] + steps, s2)
  {
    hide Next, Enabled, OneSet;
    assert ([step] + steps)[1..] == steps;
  }

  lemma {:induction false} Joined(s: State, first: seq<Step>, s1: State, second: seq<Step>, s2: State)
    requires Path(s, first, s1) && Path(s1, second, s2)
    ensures Path(s, first + second, s2)
    decreases |first|
  {
    hide Next, Enabled, OneSet;
    if first == [] {
      assert first + second == second;
    } else {
      assert (first + second)[1..] == first[1..] + second;
      Joined(Next(s, first[0]), first[1..], s1, second, s2);
    }
  }

  // ---------------------------------------------------------------- single steps, on any tasks

  function Read(stage: Stage): Task {
    Reading(B, KEY, stage)
  }

  function Asked(op: Op): Queued {
    Queued(KEY, op, Some(1))
  }

  /** The server at the owner's zone answers the read-through: the value, then its TTL. */
  lemma HomeAnswers(tasks: map<nat, Task>, next: nat, log: seq<Write>, v: Value, other: Zone)
    requires 1 in tasks && tasks[1] == Read(AskHome)
    ensures
      Leads(TwoZones(tasks, next, log, Stored(v, [Asked(Get)]), other), Execute(A, Served),
            TwoZones(tasks[1 := Read(GotHome(v))], next, log, Stored(v, []), other))
  {
    assert [Asked(Get)][1..] == [];
    Update(tasks, next, log, Stored(v, [Asked(Get)]), other, Stored(v, []));
  }

  lemma HomeAnswersTtl(tasks: map<nat, Task>, next: nat, log: seq<Write>, v: Value, other: Zone)
    requires 1 in tasks && tasks[1] == Read(AskTtl(v))
    ensures
      Leads(TwoZones(tasks, next, log, Stored(v, [Asked(Ttl)]), other), Execute(A, Served),
            TwoZones(tasks[1 := Read(GotTtl(v))], next, log, Stored(v, []), other))
  {
    assert [Asked(Ttl)][1..] == [];
    Update(tasks, next, log, Stored(v, [Asked(Ttl)]), other, Stored(v, []));
  }

  /** The read-through asks the owner's zone for the value, then for its TTL. */
  lemma HomeIsAsked(tasks: map<nat, Task>, next: nat, log: seq<Write>, v: Value, other: Zone)
    requires 1 in tasks && v.text != []
    ensures tasks[1] == Read(GotLocal(Value([], Initial))) ==>
      Leads(TwoZones(tasks, next, log, Stored(v, []), other), Proceed(1, false),
            TwoZones(tasks[1 := Read(AskHome)], next, log, Stored(v, [Asked(Get)]), other))
    ensures tasks[1] == Read(GotHome(v)) ==>
      Leads(TwoZones(tasks, next, log, Stored(v, []), other), Proceed(1, false),
            TwoZones(tasks[1 := Read(AskTtl(v))], next, log, Stored(v, [Asked(Ttl)]), other))
  {
    OwnerOfKey(TwoZones(tasks, next, log, Stored(v, []), other));
    assert [] + [Asked(Get)] == [Asked(Get)] && [] + [Asked(Ttl)] == [Asked(Ttl)];
    Update(tasks[1 := Read(AskHome)], next, log, Stored(v, []), other, Stored(v, [Asked(Get)]));
    Update(tasks[1 := Read(AskTtl(v))], next, log, Stored(v, []), other, Stored(v, [Asked(Ttl)]));
  }

  /** A client of zone b reads the key and misses. */
  lemma LocalMiss(tasks: map<nat, Task>, log: seq<Write>, a: Zone)
    ensures
      Leads(TwoZones(tasks, 1, log, a, NOTHING), StartGet(B, KEY),
            TwoZones(tasks[1 := Read(AskLocal)], 2, log, a, Zone(map[], [Asked(Get)])))
    ensures
      Leads(TwoZones(tasks[1 := Read(AskLocal)], 2, log, a, Zone(map[], [Asked(Get)])), Execute(B, Served),
            TwoZones(tasks[1 := Read(GotLocal(Value([], Initial)))], 2, log, a, NOTHING))
  {
    assert [] + [Asked(Get)] == [Asked(Get)] && [Asked(Get)][1..] == [];
    Update(tasks[1 := Read(AskLocal)], 2, log, a, NOTHING, Zone(map[], [Asked(Get)]));
    Update(tasks[1 := Read(AskLocal)], 2, log, a, Zone(map[], [Asked(Get)]), NOTHING);
    assert tasks[1 := Read(AskLocal)][1 := Read(GotLocal(Value([], Initial)))]
        == tasks[1 := Read(GotLocal(Value([], Initial)))];
  }

  lemma FillIsSent(next: nat, log: seq<Write>, a: Zone, v: Value, w: Value)
    ensures
      Leads(TwoZones(map[1 := Read(GotTtl(v))], next, log, a, Stored(w, [])), Proceed(1, false),
            TwoZones(map[1 := Read(AskFill)], next, log, a, Stored(w, [Asked(Set(v))])))
  {
    assert [] + [Asked(Set(v))] == [Asked(Set(v))];
    Update(map[1 := Read(AskFill)], next, log, a, Stored(w, []), Stored(w, [Asked(Set(v))]));
    assert map[1 := Read(GotTtl(v))][1 := Read(AskFill)] == map[1 := Read(AskFill)];
  }

  lemma FillExecutes(next: nat, log: seq<Write>, a: Zone, v: Value, w: Value)
    ensures
      Leads(TwoZones(map[1 := Read(AskFill)], next, log, a, Stored(w, [Asked(Set(v))])), Execute(B, Served),
            TwoZones(map[], next, log, a, Stored(v, [])))
  {
    assert [Asked(Set(v))][1..] == [];
    Update(map[1 := Read(AskFill)], next, log, a, Stored(w, [Asked(Set(v))]), Stored(v, []));
    assert map[1 := Read(AskFill)] - {1} == map[];
    assert map[KEY := Str(w)][KEY := Str(v)] == map[KEY := Str(v)];
  }

  /** The copy of a write is forwarded, and the dispatch of the SET ends. */
  lemma CopySent(id: nat, v: Value, reader: map<nat, Task>, next: nat, log: seq<Write>, a: Zone, b: Zone)
    requires id !in reader && b.queue == []
    ensures
      Leads(TwoZones(reader[id := Copying(A, KEY, v, {B})], next, log, a, b), CopyTo(id, B, false),
            TwoZones(reader[id := Copying(A, KEY, v, {})], next, log, a, b.(queue := [Sent(v)])))
    ensures
      Leads(TwoZones(reader[id := Copying(A, KEY, v, {})], next, log, a, b.(queue := [Sent(v)])), EndSet(id),
            TwoZones(reader, next, log, a, b.(queue := [Sent(v)])))
  {
    assert {B} - {B} == {} && b.queue + [Sent(v)] == [Sent(v)];
    Update(reader[id := Copying(A, KEY, v, {})], next, log, a, b, b.(queue := [Sent(v)]));
    assert reader[id := Copying(A, KEY, v, {B})][id := Copying(A, KEY, v, {})] == reader[id := Copying(A, KEY, v, {})];
    assert reader[id := Copying(A, KEY, v, {})] - {id} == reader;
  }

  /** The owner's second SET, dispatched while no other SET is. */
  lemma NextSetStarts(reader: map<nat, Task>, b: Zone)
    ensures
      Leads(TwoZones(reader, 2, [FIRST], Stored(V, []), b), StartSet(A, KEY, [2], false),
            TwoZones(reader[2 := Copying(A, KEY, W, {B})], 3, [FIRST, SECOND], Stored(V, [Sent(W)]), b))
  {
    OwnerOfKey(TwoZones(reader, 2, [FIRST], Stored(V, []), b));
    assert {A, B} - {A} == {B};
    assert [] + [Sent(W)] == [Sent(W)] && [FIRST] + [SECOND] == [FIRST, SECOND];
    Update(reader[2 := Copying(A, KEY, W, {B})], 3, [FIRST, SECOND], Stored(V, []), b, Stored(V, [Sent(W)]));
  }

  // ---------------------------------------------------------------- the run

  const MISS: Stage := GotLocal(Value([], Initial))

  /** The first SET's dispatch, with its copy still to be forwarded, and the read-through at some stage. */
  function During(stage: Stage): map<nat, Task> {
    map[0 := Copying(A, KEY, V, {B}), 1 := Read(stage)]
  }

  function Reader(): map<nat, Task> {
    map[1 := Read(GotTtl(V))]
  }

  /** The owner writes, and a client of the other zone misses before the copy gets there. */
  lemma WrittenAndMissed()
    ensures
      Path(TwoZones(map[], 0, [], NOTHING, NOTHING),
           [StartSet(A, KEY, [1], false), Execute(A, Served), StartGet(B, KEY), Execute(B, Served)],
           TwoZones(During(MISS), 2, [FIRST], Stored(V, []), NOTHING))
  {
    hide Next, Enabled, TwoZones, Path, Leads;
    var t: map<nat, Task> := map[0 := Copying(A, KEY, V, {B})];
    assert t[1 := Read(AskLocal)] == During(AskLocal) && t[1 := Read(MISS)] == During(MISS);
    assert [Sent(V)] + [] == [Sent(V)] && map[][KEY := Str(V)] == map[KEY := Str(V)];
    var s0 := TwoZones(map[], 0, [], NOTHING, NOTHING);
    var s1 := TwoZones(t, 1, [FIRST], Zone(map[], [Sent(V)]), NOTHING);
    var s2 := TwoZones(t, 1, [FIRST], Stored(V, []), NOTHING);
    var s3 := TwoZones(During(AskLocal), 2, [FIRST], Stored(V, []), Zone(map[], [Asked(Get)]));
    var s4 := TwoZones(During(MISS), 2, [FIRST], Stored(V, []), NOTHING);
    FirstStarts();
    AExecutes(t, 1, [FIRST], map[], V, [], NOTHING);
    LocalMiss(t, [FIRST], Stored(V, []));
    NoTasks();
    Here(s4);
    Before(s3, Execute(B, Served), s4, [], s4);
    Before(s2, StartGet(B, KEY), s3, [Execute(B, Served)] + [], s4);
    Before(s1, Execute(A, Served), s2, [StartGet(B, KEY)] + ([Execute(B, Served)] + []), s4);
    Before(s0, StartSet(A, KEY, [1], false), s1,
           [Execute(A, Served)] + ([StartGet(B, KEY)] + ([Execute(B, Served)] + [])), s4);
    assert [StartSet(A, KEY, [1], false)] + ([Execute(A, Served)] + ([StartGet(B, KEY)] + ([Execute(B, Served)] + [])))
        == [StartSet(A, KEY, [1], false), Execute(A, Served), StartGet(B, KEY), Execute(B, Served)];
  }

  lemma NoTasks()
    ensures TwoZones(map[], 0, [], NOTHING, NOTHING).tasks == map[]
  {
  }

  /** The read-through gets as far as holding the old value and its TTL. */
  lemma OldValueFetched()
    ensures
      Path(TwoZones(During(MISS), 2, [FIRST], Stored(V, []), NOTHING),
           [Proceed(1, false), Execute(A, Served), Proceed(1, false), Execute(A, Served)],
           TwoZones(During(GotTtl(V)), 2, [FIRST], Stored(V, []), NOTHING))
  {
    hide Next, Enabled, TwoZones, Path, Leads;
    var log := [FIRST];
    var s0 := TwoZones(During(MISS), 2, log, Stored(V, []), NOTHING);
    var s1 := TwoZones(During(AskHome), 2, log, Stored(V, [Asked(Get)]), NOTHING);
    var s2 := TwoZones(During(GotHome(V)), 2, log, Stored(V, []), NOTHING);
    var s3 := TwoZones(During(AskTtl(V)), 2, log, Stored(V, [Asked(Ttl)]), NOTHING);
    var s4 := TwoZones(During(GotTtl(V)), 2, log, Stored(V, []), NOTHING);
    assert During(MISS)[1 := Read(AskHome)] == During(AskHome);
    assert During(AskHome)[1 := Read(GotHome(V))] == During(GotHome(V));
    assert During(GotHome(V))[1 := Read(AskTtl(V))] == During(AskTtl(V));
    assert During(AskTtl(V))[1 := Read(GotTtl(V))] == During(GotTtl(V));
    HomeIsAsked(During(MISS), 2, log, V, NOTHING);
    HomeAnswers(During(AskHome), 2, log, V, NOTHING);
    HomeIsAsked(During(GotHome(V)), 2, log, V, NOTHING);
    HomeAnswersTtl(During(AskTtl(V)), 2, log, V, NOTHING);
    Here(s4);
    Before(s3, Execute(A, Served), s4, [], s4);
    Before(s2, Proceed(1, false), s3, [Execute(A, Served)] + [], s4);
    Before(s1, Execute(A, Served), s2, [Proceed(1, false)] + ([Execute(A, Served)] + []), s4);
    Before(s0, Proceed(1, false), s1, [Execute(A, Served)] + ([Proceed(1, false)] + ([Execute(A, Served)] + [])), s4);
    assert [Proceed(1, false)] + ([Execute(A, Served)] + ([Proceed(1, false)] + ([Execute(A, Served)] + [])))
        == [Proceed(1, false), Execute(A, Served), Proceed(1, false), Execute(A, Served)];
  }

  /** The first SET's copy arrives and its dispatch ends. */
  lemma FirstCopyArrives()
    ensures
      Path(TwoZones(During(GotTtl(V)), 2, [FIRST], Stored(V, []), NOTHING),
           [CopyTo(0, B, false), EndSet(0), Execute(B, Served)],
           TwoZones(Reader(), 2, [FIRST], Stored(V, []), Stored(V, [])))
  {
    hide Next, Enabled, TwoZones, Path, Leads;
    var log := [FIRST];
    var s0 := TwoZones(During(GotTtl(V)), 2, log, Stored(V, []), NOTHING);
    var s1 := TwoZones(Reader()[0 := Copying(A, KEY, V, {})], 2, log, Stored(V, []), Zone(map[], [Sent(V)]));
    var s2 := TwoZones(Reader(), 2, log, Stored(V, []), Zone(map[], [Sent(V)]));
    var s3 := TwoZones(Reader(), 2, log, Stored(V, []), Stored(V, []));
    assert Reader()[0 := Copying(A, KEY, V, {B})] == During(GotTtl(V));
    assert [Sent(V)] + [] == [Sent(V)] && map[][KEY := Str(V)] == map[KEY := Str(V)];
    CopySent(0, V, Reader(), 2, log, Stored(V, []), NOTHING);
    BExecutes(Reader(), 2, log, map[], V, [], Stored(V, []));
    Here(s3);
    Before(s2, Execute(B, Served), s3, [], s3);
    Before(s1, EndSet(0), s2, [Execute(B, Served)] + [], s3);
    Before(s0, CopyTo(0, B, false), s1, [EndSet(0)] + ([Execute(B, Served)] + []), s3);
    assert [CopyTo(0, B, false)] + ([EndSet(0)] + ([Execute(B, Served)] + []))
        == [CopyTo(0, B, false), EndSet(0), Execute(B, Served)];
  }

  /** The owner's second SET is dispatched, copied and executed in both zones. */
  lemma SecondSetEverywhere()
    ensures
      Path(TwoZones(Reader(), 2, [FIRST], Stored(V, []), Stored(V, [])),
           [StartSet(A, KEY, [2], false), CopyTo(2, B, false), EndSet(2), Execute(A, Served), Execute(B, Served)],
           TwoZones(Reader(), 3, [FIRST, SECOND], Stored(W, []), Stored(W, [])))
  {
    hide Next, Enabled, Path, Leads;
    var log := [FIRST, SECOND];
    var s0 := TwoZones(Reader(), 2, [FIRST], Stored(V, []), Stored(V, []));
    var s1 := TwoZones(Reader()[2 := Copying(A, KEY, W, {B})], 3, log, Stored(V, [Sent(W)]), Stored(V, []));
    var s2 := TwoZones(Reader()[2 := Copying(A, KEY, W, {})], 3, log, Stored(V, [Sent(W)]), Stored(V, [Sent(W)]));
    var s3 := TwoZones(Reader(), 3, log, Stored(V, [Sent(W)]), Stored(V, [Sent(W)]));
    var s4 := TwoZones(Reader(), 3, log, Stored(W, []), Stored(V, [Sent(W)]));
    var s5 := TwoZones(Reader(), 3, log, Stored(W, []), Stored(W, []));
    assert [Sent(W)] + [] == [Sent(W)] && map[KEY := Str(V)][KEY := Str(W)] == map[KEY := Str(W)];
    NextSetStarts(Reader(), Stored(V, []));
    CopySent(2, W, Reader(), 3, log, Stored(V, [Sent(W)]), Stored(V, []));
    AExecutes(Reader(), 3, log, map[KEY := Str(V)], W, [], Stored(V, [Sent(W)]));
    BExecutes(Reader(), 3, log, map[KEY := Str(V)], W, [], Stored(W, []));
    Here(s5);
    Before(s4, Execute(B, Served), s5, [], s5);
    Before(s3, Execute(A, Served), s4, [Execute(B, Served)] + [], s5);
    Before(s2, EndSet(2), s3, [Execute(A, Served)] + ([Execute(B, Served)] + []), s5);
    Before(s1, CopyTo(2, B, false), s2, [EndSet(2)] + ([Execute(A, Served)] + ([Execute(B, Served)] + [])), s5);
    Before(s0, StartSet(A, KEY, [2], false), s1,
           [CopyTo(2, B, false)] + ([EndSet(2)] + ([Execute(A, Served)] + ([Execute(B, Served)] + []))), s5);
    assert [StartSet(A, KEY, [2], false)]
           + ([CopyTo(2, B, false)] + ([EndSet(2)] + ([Execute(A, Served)] + ([Execute(B, Served)] + []))))
        == [StartSet(A, KEY, [2], false), CopyTo(2, B, false), EndSet(2), Execute(A, Served), Execute(B, Served)];
  }

  /** The old value is written over the new one. */
  lemma StaleFillArrives()
    ensures
      Path(TwoZones(Reader(), 3, [FIRST, SECOND], Stored(W, []), Stored(W, [])),
           [Proceed(1, false), Execute(B, Served)],
           TwoZones(map[], 3, [FIRST, SECOND], Stored(W, []), Stored(V, [])))
  {
    hide Next, Enabled, TwoZones, Path, Leads;
    var log := [FIRST, SECOND];
    var s0 := TwoZones(Reader(), 3, log, Stored(W, []), Stored(W, []));
    var s1 := TwoZones(map[1 := Read(AskFill)], 3, log, Stored(W, []), Stored(W, [Asked(Set(V))]));
    var s2 := TwoZones(map[], 3, log, Stored(W, []), Stored(V, []));
    FillIsSent(3, log, Stored(W, []), V, W);
    FillExecutes(3, log, Stored(W, []), V, W);
    Here(s2);
    Before(s1, Execute(B, Served), s2, [], s2);
    Before(s0, Proceed(1, false), s1, [Execute(B, Served)] + [], s2);
    assert [Proceed(1, false)] + ([Execute(B, Served)] + []) == [Proceed(1, false), Execute(B, Served)];
  }

  /** The same fill is in order while what it carries is the newest value, and not once the owner has written again. */
  lemma StaleOnlyAfterTheNextSet(a: Zone, b: Zone)
    ensures OrderlyRun(TwoZones(Reader(), 2, [FIRST], a, Stored(V, [])), [Proceed(1, false), Execute(B, Served)], KEY)
    ensures !Orderly(TwoZones(Reader(), 3, [FIRST, SECOND], a, b), Proceed(1, false), KEY)
  {
    var s := TwoZones(Reader(), 2, [FIRST], a, Stored(V, []));
    FillIsSent(2, [FIRST], a, V, V);
    assert Orderly(s, Proceed(1, false), KEY);
    var s1 := TwoZones(map[1 := Read(AskFill)], 2, [FIRST], a, Stored(V, [Asked(Set(V))]));
    assert Next(s, Proceed(1, false)) == s1;
    assert [Proceed(1, false), Execute(B, Served)][1..] == [Execute(B, Served)];
    assert OrderlyRun(s1, [Execute(B, Served)], KEY);
  }

  /**
   * With the SETs of the key one at a time and nothing lost, a read-through that fetched the old value in between
   * leaves the two zones with different values for good.
   */
  lemma StaleFillDiverges() returns (s0: State, steps: seq<Step>)
    ensures Init(s0) && Owner(s0, KEY) == Some(A) && SerialRun(s0, steps, KEY)
    ensures
      var s := After(s0, steps);
      && s.tasks == map[] && Settled(s, A, KEY) && Settled(s, B, KEY)
      && Holds(s.zones[A], KEY) && Held(s.zones[A], KEY).text == [2]
      && Holds(s.zones[B], KEY) && Held(s.zones[B], KEY).text == [1]
  {
    hide SerialRun, After, Next, Enabled;
    s0 := TwoZones(map[], 0, [], NOTHING, NOTHING);
    OwnerOfKey(s0);
    var p0 := [StartSet(A, KEY, [1], false), Execute(A, Served), StartGet(B, KEY), Execute(B, Served)];
    var p1 := [Proceed(1, false), Execute(A, Served), Proceed(1, false), Execute(A, Served)];
    var p2 := [CopyTo(0, B, false), EndSet(0), Execute(B, Served)];
    var p3 := [StartSet(A, KEY, [2], false), CopyTo(2, B, false), EndSet(2), Execute(A, Served), Execute(B, Served)];
    var p4 := [Proceed(1, false), Execute(B, Served)];
    steps := p0 + p1 + p2 + p3 + p4;
    var done := TwoZones(map[], 3, [FIRST, SECOND], Stored(W, []), Stored(V, []));
    assert Path(s0, steps, done) by {
      hide *;
      WrittenAndMissed();
      OldValueFetched();
      FirstCopyArrives();
      SecondSetEverywhere();
      StaleFillArrives();
      var s1 := TwoZones(During(MISS), 2, [FIRST], Stored(V, []), NOTHING);
      var s2 := TwoZones(During(GotTtl(V)), 2, [FIRST], Stored(V, []), NOTHING);
      var s3 := TwoZones(Reader(), 2, [FIRST], Stored(V, []), Stored(V, []));
      var s4 := TwoZones(Reader(), 3, [FIRST, SECOND], Stored(W, []), Stored(W, []));
      Joined(s0, p0, s1, p1, s2);
      Joined(s0, p0 + p1, s2, p2, s3);
      Joined(s0, p0 + p1 + p2, s3, p3, s4);
      Joined(s0, p0 + p1 + p2 + p3, s4, p4, done);
    }
  }
}
