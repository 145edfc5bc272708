/** What a failed SET of a key without a zone prefix leaves behind: when every zone reads as before, and when not. */
module TransactionTheorems {
  import opened Bytes
  import opened Wrappers
  import opened Zones
  import opened Transaction

  /** The store when the rollback is executed. */
  function Restored(store: Store, key: bytes, script: seq<Fate>): Store
    requires CanExec(script)
  {
    Effect(store, Undo(key, Found(store, key, script)))
  }

  /** Rolling back erases the SET, whether or not the SET was executed. */
  lemma UndoErases(store: Store, cmd: Command, fate: Fate, old_: bytes)
    requires cmd.Set?
    ensures Effect(Executed(store, cmd, fate), Undo(cmd.key, old_)) == Effect(store, Undo(cmd.key, old_))
  {
    if fate.Served? || fate == Lost(true) {
      assert Effect(store, cmd) - {cmd.key} == store - {cmd.key};
    }
  }

  /**
   * A rolled-back key reads as before if and only if the GET was not answered with an error: an error's text is taken
   * for the old value. Nothing else in the store changes.
   */
  lemma RestoredReadsAsBefore(store: Store, key: bytes, script: seq<Fate>)
    requires CanExec(script) && Honest(script)
    ensures FateAt(script, 0).Served? ==>
      (View(Restored(store, key, script), key) == View(store, key) <==> !(key in store && store[key].Other?))
    ensures FateAt(script, 0).Refused? ==>
      (View(Restored(store, key, script), key) == View(store, key) <==> FateAt(script, 0).text == View(store, key))
    ensures Restored(store, key, script) - {key} == store - {key}
  {
  }

  /** The entry itself comes back if and only if it was absent, or a non-empty string without a time to live. */
  lemma RestoredExactly(store: Store, key: bytes, script: seq<Fate>)
    requires CanExec(script) && FateAt(script, 0).Served?
    ensures Restored(store, key, script) == store <==>
      (key in store ==> store[key].Str? && store[key].value != [] && store[key].ttl.None?)
  {
    if key !in store {
      assert store - {key} == store;
    } else if store[key].Str? && store[key].value != [] && store[key].ttl.None? {
      assert store[key := store[key]] == store;
    } else {
      assert key !in Restored(store, key, script) || Restored(store, key, script)[key] != store[key];
    }
  }

  /** The condition is needed: a key of another type comes back from a rollback as a string, the error's text. */
  lemma RollbackWritesErrorText()
    ensures
      var key: bytes, refusal: bytes := [0x6B], [0x45, 0x52, 0x52];
      var before: Store, script := map[key := Other], [Served, Refused(refusal)];
      && CanExec(script) && !CanCommit(script) && Honest(script)
      && View(before, key) == []
      && Restored(before, key, script) == map[key := Str(WRONG_TYPE, None)]
  {
  }

  /** Whether a zone that was sent the SET reads the key as before: `ran` says whether its rollback was executed. */
  predicate ReadsBack(store: Store, cmd: Command, script: seq<Fate>, ran: bool)
    requires cmd.Set?
  {
    if ran then
      if FateAt(script, 0).Refused? then FateAt(script, 0).text == View(store, cmd.key)
      else !(cmd.key in store && store[cmd.key].Other?)
    else Runs(FateAt(script, 1)) ==> cmd.value == View(store, cmd.key)
  }

  /** A rollback that is executed erases the SET; one that is not changes nothing. */
  lemma RolledIs(store: Store, cmd: Command, script: seq<Fate>)
    requires cmd.Set? && CanExec(script)
    ensures Rolled(store, cmd, script) ==
      if Runs(FateAt(script, 2)) then Restored(store, cmd.key, script) else Executed(store, cmd, FateAt(script, 1))
  {
    hide Found, Undo;
    UndoErases(store, cmd, FateAt(script, 1), Found(store, cmd.key, script));
  }

  /** A rolled-back zone reads the key as before if and only if ReadsBack says so; no other key changes. */
  lemma RolledReadsAsBefore(store: Store, cmd: Command, script: seq<Fate>)
    requires cmd.Set? && CanExec(script) && Honest(script)
    ensures View(Rolled(store, cmd, script), cmd.key) == View(store, cmd.key) <==>
      ReadsBack(store, cmd, script, Runs(FateAt(script, 2)))
    ensures Rolled(store, cmd, script) - {cmd.key} == store - {cmd.key}
  {
    hide Restored, Rolled, Found, Undo;
    RolledIs(store, cmd, script);
    RestoredReadsAsBefore(store, cmd.key, script);
    SentReadsAsBefore(store, cmd, FateAt(script, 1));
  }

  lemma SentReadsAsBefore(store: Store, cmd: Command, fate: Fate)
    requires cmd.Set?
    ensures View(Executed(store, cmd, fate), cmd.key) == View(store, cmd.key) <==>
      (Runs(fate) ==> cmd.value == View(store, cmd.key))
    ensures Executed(store, cmd, fate) - {cmd.key} == store - {cmd.key}
  {
  }

  // ---------------------------------------------------------------- all zones

  /** Zone i of a failed dispatch was not sent the SET, or reads the key as before all the same. */
  ghost predicate Harmless(c: Course, cmd: Command, stores: map<bytes, Store>, scripts: map<bytes, seq<Fate>>, i: nat)
    requires cmd.Set? && stores.Keys == scripts.Keys && IsCourse(c, scripts) && i < |c.order|
  {
    var k := c.order[i];
    i < c.begun ==> ReadsBack(stores[k], cmd, scripts[k], i < c.halted && Runs(FateAt(scripts[k], 2)))
  }

  lemma FinalReadsAsBefore(c: Course, cmd: Command, stores: map<bytes, Store>, scripts: map<bytes, seq<Fate>>, i: nat)
    requires cmd.Set? && stores.Keys == scripts.Keys && IsCourse(c, scripts) && i < |c.order|
    requires Honest(scripts[c.order[i]])
    ensures
      var k := c.order[i];
      var after := Final(c, cmd, stores[k], scripts[k], i);
      && (View(after, cmd.key) == View(stores[k], cmd.key) <==> Harmless(c, cmd, stores, scripts, i))
      && after - {cmd.key} == stores[k] - {cmd.key}
  {
    hide Honest, Rolled, Executed, ReadsBack, View;
    var k := c.order[i];
    if i < c.halted {
      RolledReadsAsBefore(stores[k], cmd, scripts[k]);
    } else if i < c.begun {
      SentReadsAsBefore(stores[k], cmd, FateAt(scripts[k], 1));
      NotRan(stores[k], cmd, scripts[k]);
    }
  }

  lemma NotRan(store: Store, cmd: Command, script: seq<Fate>)
    requires cmd.Set?
    ensures ReadsBack(store, cmd, script, false) <==> (Runs(FateAt(script, 1)) ==> cmd.value == View(store, cmd.key))
  {
  }

  /**
   * After a failed SET every zone reads the key as before if and only if each zone that was sent the SET is harmless:
   * its rollback was executed and its GET had not been answered with an error, or its SET changed nothing one can read.
   * Every other key reads as before in any case.
   */
  lemma FailedSetReadsAsBefore(zones: map<bytes, Zone>, c: Course, cmd: Command,
                               stores: map<bytes, Store>, scripts: map<bytes, seq<Fate>>)
    requires cmd.Set? && stores.Keys == scripts.Keys == zones.Keys && IsCourse(c, scripts)
    requires AllFinal(zones, c, cmd, stores, scripts) && forall k :: k in scripts ==> Honest(scripts[k])
    ensures (forall k :: k in zones ==> View(zones[k].Settled(), cmd.key) == View(stores[k], cmd.key)) <==>
      forall i :: 0 <= i < |c.order| ==> Harmless(c, cmd, stores, scripts, i)
    ensures forall k :: k in zones ==> zones[k].Settled() - {cmd.key} == stores[k] - {cmd.key}
  {
    hide Zone.Valid, Zone.Settled, Honest, Final, Harmless, View;
    forall i | 0 <= i < |c.order|
      ensures
        var k := c.order[i];
        && (View(zones[k].Settled(), cmd.key) == View(stores[k], cmd.key) <==> Harmless(c, cmd, stores, scripts, i))
        && zones[k].Settled() - {cmd.key} == stores[k] - {cmd.key}
    {
      FinalReadsAsBefore(c, cmd, stores, scripts, i);
    }
    forall k | k in zones
      ensures exists i :: 0 <= i < |c.order| && c.order[i] == k
    {
      assert k in c.order;
    }
  }

  /** The key is a string or absent, its GET is not answered with an error, and its rollback would be executed. */
  predicate Tame(store: Store, key: bytes, script: seq<Fate>) {
    !(key in store && store[key].Other?) && !FateAt(script, 0).Refused? && Runs(FateAt(script, 2))
  }

  /** Tame zones are harmless whichever component fails, so all or nothing holds for them. */
  lemma TameIsHarmless(c: Course, cmd: Command, stores: map<bytes, Store>, scripts: map<bytes, seq<Fate>>)
    requires cmd.Set? && stores.Keys == scripts.Keys && IsCourse(c, scripts) && !AllCommit(scripts)
    requires forall k :: k in scripts ==> Tame(stores[k], cmd.key, scripts[k])
    ensures c.halted == c.begun && forall i :: 0 <= i < |c.order| ==> Harmless(c, cmd, stores, scripts, i)
  {
    hide AllCommit, CanExec;
  }

  /** So after a failed SET of tame zones every zone reads exactly as before, for every key. */
  lemma TameZonesReadAsBefore(zones: map<bytes, Zone>, c: Course, cmd: Command,
                              stores: map<bytes, Store>, scripts: map<bytes, seq<Fate>>)
    requires cmd.Set? && stores.Keys == scripts.Keys == zones.Keys && IsCourse(c, scripts) && !AllCommit(scripts)
    requires AllFinal(zones, c, cmd, stores, scripts)
    requires forall k :: k in scripts ==> Honest(scripts[k]) && Tame(stores[k], cmd.key, scripts[k])
    ensures forall k, x :: k in zones ==> View(zones[k].Settled(), x) == View(stores[k], x)
  {
    hide Zone.Valid, Zone.Settled, Honest, Tame, AllFinal, Harmless, AllCommit, IsCourse;
    TameIsHarmless(c, cmd, stores, scripts);
    FailedSetReadsAsBefore(zones, c, cmd, stores, scripts);
    forall k, x | k in zones
      ensures View(zones[k].Settled(), x) == View(stores[k], x)
    {
      if x != cmd.key {
        SameElsewhere(stores[k], zones[k].Settled(), cmd.key, x);
      }
    }
  }

  lemma SameElsewhere(before: Store, after: Store, key: bytes, x: bytes)
    requires after - {key} == before - {key} && x != key
    ensures View(after, x) == View(before, x)
  {
    assert x in after - {key} <==> x in before - {key};
    assert x in after - {key} ==> (after - {key})[x] == (before - {key})[x];
  }

  /** A failed dispatch panics, and so returns nil, if and only if some zone that was sent the SET loses its connection. */
  lemma FailureReadsAsSuccess(c: Course, scripts: map<bytes, seq<Fate>>)
    requires IsCourse(c, scripts) && !AllCommit(scripts)
    ensures Result(c, scripts).0.None? <==>
      exists i :: 0 <= i < c.begun && FateAt(scripts[c.order[i]], 2) == NilConn
  {
    hide AllCommit, CanExec, FateAt;
  }

  // ---------------------------------------------------------------- a client that waits for ever

  lemma {:induction false} Enumerate(keys: set<bytes>) returns (order: seq<bytes>)
    ensures forall k :: k in keys <==> k in order
    ensures forall i, j :: 0 <= i < j < |order| ==> order[i] != order[j]
    decreases |keys|
  {
    if keys == {} {
      order := [];
    } else {
      var k :| k in keys;
      var rest := Enumerate(keys - {k});
      order := [k] + rest;
    }
  }

  /** A zone that cannot start may be the first one the loop visits. */
  lemma EndsAtOnce(scripts: map<bytes, seq<Fate>>, k: bytes) returns (c: Course)
    requires k in scripts && !CanExec(scripts[k])
    ensures IsCourse(c, scripts) && c.begun < |c.order| && c.order[c.begun] == k
  {
    hide AllCommit, CanExec, FateAt;
    var rest := Enumerate(scripts.Keys - {k});
    c := Course([k] + rest, 0, 0);
  }

  /** When every zone can start the course is run to its end. */
  lemma RunsThrough(scripts: map<bytes, seq<Fate>>) returns (c: Course)
    requires forall k :: k in scripts ==> CanExec(scripts[k])
    ensures IsCourse(c, scripts) && c.begun == |c.order|
  {
    hide AllCommit, CanExec, FateAt;
    var order := Enumerate(scripts.Keys);
    var h := 0;
    while h < |order| && FateAt(scripts[order[h]], 2) != NilConn
      invariant h <= |order| && forall i :: 0 <= i < h ==> FateAt(scripts[order[i]], 2) != NilConn
    {
      h := h + 1;
    }
    c := Course(order, |order|, h);
  }

  /** In some order of the zones the client waits for ever, if and only if its zone loses its connection after the GET. */
  lemma HangsInSomeOrder(scripts: map<bytes, seq<Fate>>, own: bytes)
    requires own in scripts
    ensures (exists c :: IsCourse(c, scripts) && Stuck(c, own, scripts)) <==> Hangs(scripts[own])
  {
    if Hangs(scripts[own]) {
      var c := EndsAtOnce(scripts, own);
      assert Stuck(c, own, scripts);
    }
  }

  /** In every order, if and only if moreover no other zone can end the course first. */
  lemma HangsInEveryOrder(scripts: map<bytes, seq<Fate>>, own: bytes)
    requires own in scripts
    ensures (forall c :: IsCourse(c, scripts) ==> Stuck(c, own, scripts)) <==>
      Hangs(scripts[own]) && forall k :: k in scripts && k != own ==> CanExec(scripts[k])
  {
    hide AllCommit, FateAt, Answered;
    if k :| k in scripts && k != own && !CanExec(scripts[k]) {
      var c := EndsAtOnce(scripts, k);
      assert !Stuck(c, own, scripts);
    } else if Hangs(scripts[own]) {
      forall c | IsCourse(c, scripts)
        ensures Stuck(c, own, scripts)
      {
        assert own in c.order;
      }
    } else if CanExec(scripts[own]) {
      var c := RunsThrough(scripts);
      assert !Stuck(c, own, scripts);
    } else {
      var c := EndsAtOnce(scripts, own);
      assert !Stuck(c, own, scripts);
    }
  }

  // ---------------------------------------------------------------- a half-written SET

  const KEY: bytes := [0x6B]
  const ERR: bytes := [0x45, 0x52, 0x52]
  const A: bytes := [97]
  const B: bytes := [98]

  /** Zone a executes the SET, zone b refuses it; the fate is that of the rollback at a. */
  function Scripts(fate: Fate): map<bytes, seq<Fate>> {
    map[A := [Served, Served, fate], B := [Served, Refused(ERR)]]
  }

  lemma HalfFates(fate: Fate)
    requires fate == Full || fate == NilConn
    ensures
      var fs := Scripts(fate);
      && Honest(fs[A]) && CanCommit(fs[A]) && FateAt(fs[A], 2) == fate
      && Honest(fs[B]) && CanExec(fs[B]) && !CanCommit(fs[B]) && FateAt(fs[B], 2) == Served
      && !AllCommit(fs)
  {
    assert B in Scripts(fate);
  }

  /** In whatever order the zones are visited, both are sent the SET and the rollback panics just when it can. */
  lemma HalfCourse(c: Course, fate: Fate)
    requires (fate == Full || fate == NilConn) && IsCourse(c, Scripts(fate))
    ensures !AllCommit(Scripts(fate)) && c.begun == |c.order| && (c.halted < c.begun <==> fate == NilConn)
  {
    hide CanExec, CanCommit, FateAt, AllCommit, Honest;
    HalfFates(fate);
    assert forall i :: 0 <= i < |c.order| ==> c.order[i] in Scripts(fate);
    assert A in c.order;
  }

  lemma HalfFinal(c: Course, fate: Fate, i: nat)
    requires (fate == Full || fate == NilConn) && IsCourse(c, Scripts(fate)) && i < |c.order|
    ensures
      var k := c.order[i];
      && k in Scripts(fate) && (i < c.begun ==> CanExec(Scripts(fate)[k]))
      && Final(c, Set(KEY, [1], None), map[], Scripts(fate)[k], i) == if k == A then map[KEY := Str([1], None)] else map[]
  {
    hide AllCommit;
    HalfCourse(c, fate);
    HalfRolled(fate);
    assert c.order[i] in Scripts(fate);
  }

  lemma HalfRolled(fate: Fate)
    requires fate == Full || fate == NilConn
    ensures
      var fs, cmd, new_ := Scripts(fate), Set(KEY, [1], None), map[KEY := Str([1], None)];
      && CanExec(fs[A]) && Executed(map[], cmd, FateAt(fs[A], 1)) == new_ == Rolled(map[], cmd, fs[A])
      && CanExec(fs[B]) && Executed(map[], cmd, FateAt(fs[B], 1)) == map[] == Rolled(map[], cmd, fs[B])
  {
    assert map[][KEY := Str([1], None)] == map[KEY := Str([1], None)];
    var none: Store := map[];
    assert none - {KEY} == none && map[KEY := Str([1], None)] - {KEY} == none;
  }

  method TwoZones(fate: Fate) returns (a: Zone, b: Zone)
    ensures fresh(a) && fresh(b) && a != b && a.Valid() && b.Valid()
    ensures a.Settled() == map[] == b.Settled()
    ensures a.script == Scripts(fate)[A] && b.script == Scripts(fate)[B]
  {
    hide Zone.Valid, Zone.Settled;
    a := new Zone(A, map[], [Served, Served, fate]);
    b := new Zone(B, map[], [Served, Refused(ERR)]);
  }

  lemma Snapshots(zones: map<bytes, Zone>, a: Zone, b: Zone, fate: Fate)
    requires (fate == Full || fate == NilConn) && zones == map[A := a, B := b] && a != b && a.Valid() && b.Valid()
    requires a.Settled() == map[] == b.Settled() && a.script == Scripts(fate)[A] && b.script == Scripts(fate)[B]
    ensures Distinct(zones)
    ensures (map k | k in zones :: zones[k].Settled()) == map[A := map[], B := map[]]
    ensures (map k | k in zones :: zones[k].script) == Scripts(fate)
  {
    hide Zone.Valid, Zone.Settled, Honest;
    HalfFates(fate);
  }

  /**
   * A rollback that is dropped on a full input leaves the new value where the SET succeeded, and dispatch returns an
   * error; one that meets a nil connection does so too, and dispatch returns nil, so that a client of zone a reads OK.
   */
  method HalfASet(fate: Fate) returns (err: Option<TrxError>, ticket: nat, a: Zone, b: Zone)
    requires fate == Full || fate == NilConn
    ensures err == if fate == Full then Some(CmptCheck) else None
    ensures a.Promised(ticket) == Some(Replied(Status(OK)))
    ensures View(a.Settled(), KEY) == [1] && View(b.Settled(), KEY) == []
  {
    hide Zone.Valid, Zone.Settled, Distinct, AllCommit, IsCourse, Final, Honest;
    a, b := TwoZones(fate);
    var zones := map[A := a, B := b];
    Snapshots(zones, a, b, fate);
    var panicked, hangs;
    ghost var c, stores, scripts;
    err, panicked, hangs, ticket, c, stores, scripts := SetEverywhere(zones, Set(KEY, [1], None), A);
    HalfCourse(c, fate);
    HalfEnds(zones, c, fate);
    HalfReply(c, fate);
  }

  lemma HalfReply(c: Course, fate: Fate)
    requires (fate == Full || fate == NilConn) && IsCourse(c, Scripts(fate))
    ensures A in c.order[..c.begun]
    ensures Response(map[], Set(KEY, [1], None), FateAt(Scripts(fate)[A], 1)) == Replied(Status(OK))
  {
    hide AllCommit, CanExec;
    HalfCourse(c, fate);
    assert A in Scripts(fate) && c.order[..c.begun] == c.order;
  }

  lemma HalfEnds(zones: map<bytes, Zone>, c: Course, fate: Fate)
    requires (fate == Full || fate == NilConn) && IsCourse(c, Scripts(fate)) && zones.Keys == {A, B}
    requires AllFinal(zones, c, Set(KEY, [1], None), map[A := map[], B := map[]], Scripts(fate))
    ensures View(zones[A].Settled(), KEY) == [1] && View(zones[B].Settled(), KEY) == []
  {
    hide Zone.Valid, Zone.Settled, Final, CanExec, CanCommit, FateAt, AllCommit;
    assert A in c.order && B in c.order;
    var i :| 0 <= i < |c.order| && c.order[i] == A;
    var j :| 0 <= j < |c.order| && c.order[j] == B;
    HalfFinal(c, fate, i);
    HalfFinal(c, fate, j);
  }
}
