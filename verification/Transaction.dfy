/**
 * SET of a key without a zone prefix (transaction.go and the SET branch of dispatch): every zone's old value is read and
 * the SET queued, then every reply is checked; on any failure the zones already written are rolled back.
 */
module Transaction {
  import opened Bytes
  import opened Wrappers
  import opened Zones

  datatype TrxError = CmptExec | CmptCheck | Commit

  // ---------------------------------------------------------------- specification

  /** The component's own GET got a reply. */
  predicate Answered(script: seq<Fate>) {
    FateAt(script, 0).Served? || FateAt(script, 0).Refused?
  }

  /** And its SET could be handed to a connection. */
  predicate CanExec(script: seq<Fate>) {
    Answered(script) && FateAt(script, 1) != NilConn
  }

  predicate CanCommit(script: seq<Fate>) {
    CanExec(script) && FateAt(script, 1).Served?
  }

  /** Its SET meets a nil connection: PushBack has counted the request's batch up, and nothing will count it down. */
  predicate Hangs(script: seq<Fate>) {
    Answered(script) && FateAt(script, 1) == NilConn
  }

  /** The old value Exec remembers: the text of whatever the GET was answered with. */
  function Found(store: Store, key: bytes, script: seq<Fate>): bytes
    requires Answered(script)
  {
    Text(Response(store, Get(key), FateAt(script, 0)).reply)
  }

  function Undo(key: bytes, old_: bytes): Command {
    if old_ != [] then Set(key, old_, None) else Del(key)
  }

  /** The store after the SET and its rollback, whatever became of either. */
  function Rolled(store: Store, cmd: Command, script: seq<Fate>): Store
    requires CanExec(script)
  {
    Executed(Executed(store, cmd, FateAt(script, 1)), Undo(cmd.key, Found(store, cmd.key, script)), FateAt(script, 2))
  }

  /**
   * How the dispatch went: the zones in the order they were visited, how many of them were sent the SET, and, if it came
   * to a rollback, how many of those the rollback got to before a nil connection ended it.
   */
  datatype Course = Course(order: seq<bytes>, begun: nat, halted: nat)

  predicate AllCommit(scripts: map<bytes, seq<Fate>>) {
    forall k :: k in scripts ==> CanCommit(scripts[k])
  }

  /** Given the order, the fates leave one possible course. */
  ghost predicate IsCourse(c: Course, scripts: map<bytes, seq<Fate>>) {
    && (forall k :: k in scripts <==> k in c.order)
    && (forall i, j :: 0 <= i < j < |c.order| ==> c.order[i] != c.order[j])
    && c.halted <= c.begun <= |c.order|
    && (forall i :: 0 <= i < c.begun ==> CanExec(scripts[c.order[i]]))
    && (c.begun < |c.order| ==> !CanExec(scripts[c.order[c.begun]]))
    && (!AllCommit(scripts) ==>
          && (forall i :: 0 <= i < c.halted ==> FateAt(scripts[c.order[i]], 2) != NilConn)
          && (c.halted < c.begun ==> FateAt(scripts[c.order[c.halted]], 2) == NilConn))
  }

  /** The error dispatch returns, and whether it got there by a recovered panic. */
  function Result(c: Course, scripts: map<bytes, seq<Fate>>): (Option<TrxError>, bool) {
    if AllCommit(scripts) then (None, false)
    else if c.halted < c.begun then (None, true)
    else (Some(if c.begun < |c.order| then CmptExec else CmptCheck), false)
  }

  /** The client waits for its own request, and that is the one the zone `own` is sent: the course ends there. */
  ghost predicate Stuck(c: Course, own: bytes, scripts: map<bytes, seq<Fate>>)
    requires IsCourse(c, scripts)
  {
    c.begun < |c.order| && c.order[c.begun] == own && Hangs(scripts[own])
  }

  /** What the i-th zone of a failed dispatch holds in the end. */
  function Final(c: Course, cmd: Command, store: Store, script: seq<Fate>, i: nat): Store
    requires i < c.begun ==> CanExec(script)
  {
    if c.begun <= i then store
    else if i < c.halted then Rolled(store, cmd, script)
    else Executed(store, cmd, FateAt(script, 1))
  }

  lemma NothingRuns(store: Store, cmd: Command)
    ensures Executed(store, cmd, NilConn) == store
  {
  }

  // ---------------------------------------------------------------- SetRedisTrx

  class SetRedisTrx {
    const zone: Zone
    const cmd: Command
    var flag: bool
    var oldV: bytes
    var ticket: nat  // the request's place in the zone's queue
    var raised: bool  // the request's batch has been counted up for a push that failed
    ghost const store0: Store
    ghost const script0: seq<Fate>

    constructor (zone: Zone, cmd: Command)
      requires zone.Valid() && cmd.Set?
      ensures this.zone == zone && this.cmd == cmd && store0 == zone.Settled() && script0 == zone.script
      ensures Prepared() && !flag
    {
      this.zone := zone;
      this.cmd := cmd;
      this.flag := false;
      this.raised := false;
      this.store0 := zone.Settled();
      this.script0 := zone.script;
    }

    ghost predicate Prepared()
      reads this, zone
    {
      zone.Valid() && cmd.Set? && !flag && !raised && zone.Settled() == store0 && zone.script == script0
    }

    ghost predicate Failed()
      reads this, zone
    {
      zone.Valid() && cmd.Set? && zone.Settled() == store0 && !CanExec(script0) && raised == Hangs(script0)
    }

    ghost predicate Untouched()
      reads this, zone
    {
      zone.Valid() && zone.Settled() == store0
    }

    /** The SET is in the queue or done, and it was the zone's latest command. */
    ghost predicate Started()
      reads this, zone
    {
      && zone.Valid()
      && cmd.Set?
      && CanExec(script0)
      && !raised
      && zone.script == Later(script0, 2)
      && oldV == Found(store0, cmd.key, script0)
      && zone.Settled() == Executed(store0, cmd, FateAt(script0, 1))
      && ticket == zone.next - 1
      && zone.Promised(ticket) == Some(Response(store0, cmd, FateAt(script0, 1)))
    }

    ghost predicate Committed()
      reads this, zone
    {
      Started() && CanCommit(script0) && zone.queue == []
    }

    /** What the SET is answered with is settled: its place in the queue, and the store it found. */
    ghost predicate Reported()
      reads this, zone
    {
      ticket < zone.next && zone.Promised(ticket) == Some(Response(store0, cmd, FateAt(script0, 1)))
    }

    /** The SET has been sent, and no rollback. */
    ghost predicate Sent()
      reads this, zone
    {
      zone.Valid() && CanExec(script0) && zone.Settled() == Executed(store0, cmd, FateAt(script0, 1)) && Reported()
    }

    /** The rollback command has been through the connection, with whatever fate it had. */
    ghost predicate RolledBack()
      reads this, zone
    {
      && zone.Valid()
      && CanExec(script0)
      && zone.Settled() == Rolled(store0, cmd, script0)
      && Reported()
      && (FateAt(script0, 2) != Full && FateAt(script0, 2) != NilConn ==> zone.queue == [])
    }

    lemma ReportedAtLast()
      ensures Sent() || RolledBack() || Committed() ==> Reported()
    {
    }

    lemma StartedIsSent()
      requires Started()
      ensures Sent()
    {
    }

    /** The old value, read through the zone's own queue; no reply is a nil dereference. */
    method ReadOld() returns (panicked: bool)
      requires Prepared()
      modifies this`oldV, zone
      ensures zone.Valid() && zone.Settled() == store0 && zone.script == Later(script0, 1)
      ensures panicked == !Answered(script0)
      ensures !panicked ==> oldV == Found(store0, cmd.key, script0)
    {
      hide Zone.Settled, Zone.Promised, Zone.Valid, Later, Answer, Text;
      var get, nil := zone.Forward(Get(cmd.key));
      if nil {
        return true;
      }
      var outcome := zone.Wait(get);
      if !outcome.Replied? {
        return true;
      }
      oldV := Text(outcome.reply);
      panicked := false;
    }

    /** The SET itself; it is not waited for. */
    method Send() returns (panicked: bool)
      requires zone.Valid() && cmd.Set? && zone.Settled() == store0 && zone.script == Later(script0, 1)
      requires Answered(script0) && oldV == Found(store0, cmd.key, script0) && !raised
      modifies this`ticket, this`raised, zone
      ensures panicked == !CanExec(script0)
      ensures if panicked then Failed() else Started()
    {
      hide Zone.Settled, Zone.Promised, Zone.Valid, Response, Executed, Later, Answered, Found;
      LaterLater(script0, 1, 1);
      NothingRuns(store0, cmd);
      ticket, panicked := zone.Forward(cmd);
      raised := panicked;
    }

    lemma ExecMeans()
      ensures CanExec(script0) <==>
        (FateAt(script0, 0).Served? || FateAt(script0, 0).Refused?) && !FateAt(script0, 1).NilConn?
      ensures CanExec(script0) ==>
        Found(store0, cmd.key, script0) ==
          if FateAt(script0, 0).Refused? then FateAt(script0, 0).text
          else if cmd.key !in store0 then []
          else if store0[cmd.key].Str? then store0[cmd.key].value else WRONG_TYPE
    {
    }

    method Exec() returns (panicked: bool)
      requires Prepared()
      modifies this`oldV, this`ticket, this`raised, zone
      ensures panicked == !CanExec(script0)
      ensures if panicked then Failed() else Started()
      ensures flag == old(flag)
      ensures panicked <==>
        || !(FateAt(script0, 0).Served? || FateAt(script0, 0).Refused?)
        || FateAt(script0, 1).NilConn?
      ensures !panicked ==>
        oldV ==
          if FateAt(script0, 0).Refused? then FateAt(script0, 0).text
          else if cmd.key !in store0 then []
          else if store0[cmd.key].Str? then store0[cmd.key].value else WRONG_TYPE
    {
      hide Zone.Settled, Zone.Promised, Zone.Valid, Response, Executed, Later, Answered, Found, FateAt, Started;
      ExecMeans();
      panicked := ReadOld();
      if !panicked {
        panicked := Send();
      }
    }

    method Check() returns (success: bool, panicked: bool)
      requires Started() && !flag && Honest(script0)
      modifies this`flag, zone
      ensures Started()
      ensures !panicked && success <==> CanCommit(script0)
      ensures !panicked && success <==> FateAt(script0, 1).Served?
      ensures !panicked && success ==> Committed()
    {
      var outcome := zone.Wait(ticket);
      if !outcome.Replied? {
        return false, true;
      }
      if Text(outcome.reply) == OK {
        flag := true;
      }
      return flag, false;
    }

    method Rollback() returns (panicked: bool)
      requires Started()
      modifies zone
      ensures panicked == (FateAt(script0, 2) == NilConn)
      ensures RolledBack() && (panicked ==> Sent())
      ensures zone.Settled() ==
        Executed(old(zone.Settled()), if oldV != [] then Set(cmd.key, oldV, None) else Del(cmd.key), FateAt(script0, 2))
    {
      hide Zone.Settled, Zone.Promised, Zone.Valid, Effect, Executed, Later, Answered, Found;
      NothingRuns(zone.Settled(), Undo(cmd.key, oldV));
      var undo, nil := zone.Forward(Undo(cmd.key, oldV));
      if nil {
        return true;
      }
      var _ := zone.Wait(undo);
      panicked := false;
    }
  }

  // ---------------------------------------------------------------- Transaction

  class Transaction {
    var trans: seq<SetRedisTrx>
    var execed: seq<SetRedisTrx>

    constructor ()
      ensures trans == [] && execed == []
    {
      trans, execed := [], [];
    }

    /** No two components share a zone. */
    ghost predicate Separate()
      reads this`trans
    {
      forall i, j :: 0 <= i < j < |trans| ==> trans[i] != trans[j] && trans[i].zone != trans[j].zone
    }

    method Prepare(tran: SetRedisTrx)
      modifies this`trans
      ensures trans == old(trans) + [tran]
    {
      trans := trans + [tran];
    }

    method Exec() returns (err: Option<TrxError>)
      requires Separate() && execed == []
      requires forall i :: 0 <= i < |trans| ==> trans[i].Prepared() && !trans[i].flag
      modifies this`execed, trans, set c | c in trans :: c.zone
      ensures execed <= trans
      ensures forall i :: 0 <= i < |trans| ==> !trans[i].flag
      ensures forall i :: 0 <= i < |execed| ==> trans[i].Started()
      ensures err.None? ==> execed == trans
      ensures err.Some? ==> err == Some(CmptExec) && |execed| < |trans| && trans[|execed|].Failed()
      ensures err.Some? ==> forall i :: |execed| < i < |trans| ==> trans[i].Prepared()
    {
      hide SetRedisTrx.Prepared, SetRedisTrx.Started, SetRedisTrx.Failed, CanExec;
      var i := 0;
      while i < |trans|
        invariant 0 <= i <= |trans| && execed == trans[..i]
        invariant forall j :: 0 <= j < |trans| ==> !trans[j].flag
        invariant forall j :: 0 <= j < i ==> trans[j].Started()
        invariant forall j :: i <= j < |trans| ==> trans[j].Prepared()
      {
        var panicked := trans[i].Exec();
        if panicked {
          return Some(CmptExec);
        }
        execed := execed + [trans[i]];
        i := i + 1;
      }
      err := None;
    }

    method Commit() returns (err: Option<TrxError>)
      requires Separate() && execed <= trans
      requires forall i :: 0 <= i < |execed| ==> trans[i].Started() && !trans[i].flag && Honest(trans[i].script0)
      modifies execed, set c | c in execed :: c.zone
      ensures forall i :: 0 <= i < |execed| ==> trans[i].Started()
      ensures err.None? ==> execed == trans && forall i :: 0 <= i < |trans| ==> trans[i].Committed()
      ensures err.Some? && execed == trans ==>
        err == Some(CmptCheck) && exists i :: 0 <= i < |trans| && !CanCommit(trans[i].script0)
    {
      hide SetRedisTrx.Started, SetRedisTrx.Committed;
      if |execed| != |trans| {
        return Some(TrxError.Commit);
      }
      var i := 0;
      while i < |execed|
        invariant 0 <= i <= |execed|
        invariant forall j :: 0 <= j < |execed| ==> trans[j].Started()
        invariant forall j :: 0 <= j < i ==> trans[j].Committed()
        invariant forall j :: i <= j < |execed| ==> !trans[j].flag
      {
        var success, panicked := execed[i].Check();
        if panicked || !success {
          return Some(CmptCheck);
        }
        i := i + 1;
      }
      err := None;
    }

    /** The components in order, until a nil connection panics. */
    method Rollback() returns (panicked: bool, ghost done: nat)
      requires Separate() && execed <= trans
      requires forall i :: 0 <= i < |execed| ==> trans[i].Started()
      modifies set c | c in execed :: c.zone
      ensures done <= |execed| && panicked == (done < |execed|)
      ensures forall i :: 0 <= i < done ==> trans[i].RolledBack() && FateAt(trans[i].script0, 2) != NilConn
      ensures done < |execed| ==> FateAt(trans[done].script0, 2) == NilConn
      ensures forall i :: done <= i < |execed| ==> trans[i].Sent()
    {
      hide SetRedisTrx.Started, SetRedisTrx.RolledBack, SetRedisTrx.Sent, FateAt;
      done := 0;
      var i := 0;
      while i < |execed|
        invariant 0 <= i <= |execed| && done == i
        invariant forall j :: 0 <= j < i ==> trans[j].RolledBack() && FateAt(trans[j].script0, 2) != NilConn
        invariant forall j :: i <= j < |execed| ==> trans[j].Started()
      {
        panicked := execed[i].Rollback();
        if panicked {
          forall j | i < j < |execed|
            ensures trans[j].Sent()
          {
            trans[j].StartedIsSent();
          }
          return;
        }
        i := i + 1;
        done := i;
      }
      panicked := false;
    }
  }

  // ---------------------------------------------------------------- the SET branch of dispatch

  /** Zones on distinct backends, each with a well-behaved queue. */
  ghost predicate Distinct(zones: map<bytes, Zone>)
    reads zones.Values
  {
    && (forall k :: k in zones ==> zones[k].Valid() && Honest(zones[k].script))
    && (forall j, k :: j in zones && k in zones && j != k ==> zones[j] != zones[k])
  }

  /** The keys of a map, in whatever order a range statement visits them. */
  method Range(zones: map<bytes, Zone>) returns (order: seq<bytes>)
    ensures forall k :: k in zones <==> k in order
    ensures forall i, j :: 0 <= i < j < |order| ==> order[i] != order[j]
  {
    order := [];
    var todo := zones.Keys;
    while todo != {}
      invariant todo <= zones.Keys
      invariant forall k :: k in zones <==> k in todo || k in order
      invariant forall k :: k in order ==> k !in todo
      invariant forall i, j :: 0 <= i < j < |order| ==> order[i] != order[j]
      decreases |todo|
    {
      var k :| k in todo;
      order := order + [k];
      todo := todo - {k};
    }
  }

  /** One component per zone; the one of the zone `own` carries the client's own request, the others copies of it. */
  method PrepareAll(zones: map<bytes, Zone>, order: seq<bytes>, cmd: Command, own: bytes)
    returns (t: Transaction, mine: SetRedisTrx?)
    requires cmd.Set? && Distinct(zones)
    requires forall i :: 0 <= i < |order| ==> order[i] in zones
    requires forall i, j :: 0 <= i < j < |order| ==> order[i] != order[j]
    ensures fresh(t) && fresh(t.trans) && t.Separate() && t.execed == [] && |t.trans| == |order|
    ensures forall i :: 0 <= i < |order| ==> t.trans[i].zone == zones[order[i]] && t.trans[i].cmd == cmd
    ensures forall i :: 0 <= i < |order| ==> t.trans[i].Prepared() && !t.trans[i].flag
    ensures forall i :: 0 <= i < |order| ==> (order[i] == own <==> mine == t.trans[i])
    ensures own !in order ==> mine == null
  {
    hide SetRedisTrx.Prepared, Zone.Valid, Honest;
    t := new Transaction();
    mine := null;
    var i := 0;
    while i < |order|
      invariant 0 <= i <= |order| && |t.trans| == i && t.execed == []
      invariant fresh(t) && fresh(t.trans)
      invariant forall j, k :: 0 <= j < k < i ==> t.trans[j] != t.trans[k]
      invariant forall j :: 0 <= j < i ==> t.trans[j].zone == zones[order[j]] && t.trans[j].cmd == cmd
      invariant forall j :: 0 <= j < i ==> t.trans[j].Prepared() && !t.trans[j].flag
      invariant forall j :: 0 <= j < i ==> (order[j] == own <==> mine == t.trans[j])
      invariant own !in order[..i] ==> mine == null
      invariant mine == null || mine in t.trans
    {
      var c := new SetRedisTrx(zones[order[i]], cmd);
      t.Prepare(c);
      if order[i] == own {
        mine := c;
      }
      i := i + 1;
    }
  }

  /** Exec, then Commit: how far it got, and where the components stand. */
  method Advance(t: Transaction) returns (err: Option<TrxError>)
    requires t.Separate() && t.execed == []
    requires forall i :: 0 <= i < |t.trans| ==>
      t.trans[i].Prepared() && !t.trans[i].flag && Honest(t.trans[i].script0)
    modifies t`execed, t.trans, set c | c in t.trans :: c.zone
    ensures t.execed <= t.trans
    ensures forall i :: 0 <= i < |t.execed| ==> t.trans[i].Started() && CanExec(t.trans[i].script0)
    ensures forall i :: |t.execed| <= i < |t.trans| ==> t.trans[i].Untouched()
    ensures |t.execed| < |t.trans| ==> !CanExec(t.trans[|t.execed|].script0)
    ensures err.None? <==> forall i :: 0 <= i < |t.trans| ==> CanCommit(t.trans[i].script0)
    ensures err.None? ==> t.execed == t.trans && forall i :: 0 <= i < |t.trans| ==> t.trans[i].Committed()
    ensures err.Some? ==> err.value == if |t.execed| < |t.trans| then CmptExec else CmptCheck
    ensures forall i :: 0 <= i < |t.trans| ==> t.trans[i].raised == (i == |t.execed| && Hangs(t.trans[i].script0))
  {
    hide Zone.Valid, Zone.Settled, Zone.Promised, Response, Executed, Found, FateAt;
    err := t.Exec();
    if err.None? {
      err := t.Commit();
    }
  }

  /** And Rollback when either fails. A panic in Rollback leaves the rest of the zones as they are. */
  method Conclude(t: Transaction) returns (err: Option<TrxError>, panicked: bool, ghost begun: nat, ghost halted: nat)
    requires t.Separate() && t.execed == []
    requires forall i :: 0 <= i < |t.trans| ==>
      t.trans[i].Prepared() && !t.trans[i].flag && Honest(t.trans[i].script0)
    modifies t`execed, t.trans, set c | c in t.trans :: c.zone
    ensures halted <= begun <= |t.trans|
    ensures forall i :: 0 <= i < begun ==> CanExec(t.trans[i].script0)
    ensures begun < |t.trans| ==> !CanExec(t.trans[begun].script0)
    ensures forall i :: 0 <= i < |t.trans| ==> t.trans[i].raised == (i == begun && Hangs(t.trans[i].script0))
    ensures err.None? && !panicked <==> forall i :: 0 <= i < |t.trans| ==> CanCommit(t.trans[i].script0)
    ensures err.None? && !panicked ==> forall i :: 0 <= i < |t.trans| ==> t.trans[i].Committed()
    ensures err.Some? || panicked ==>
      && panicked == (halted < begun)
      && err == (if panicked then None else Some(if begun < |t.trans| then CmptExec else CmptCheck))
      && (forall i :: 0 <= i < halted ==> FateAt(t.trans[i].script0, 2) != NilConn)
      && (halted < begun ==> FateAt(t.trans[halted].script0, 2) == NilConn)
      && (forall i :: 0 <= i < halted ==> t.trans[i].RolledBack())
      && (forall i :: halted <= i < begun ==> t.trans[i].Sent())
      && (forall i :: begun <= i < |t.trans| ==> t.trans[i].Untouched())
    ensures forall i :: 0 <= i < begun ==> t.trans[i].Reported()
  {
    hide SetRedisTrx.Reported;
    hide SetRedisTrx.Prepared, SetRedisTrx.Started, SetRedisTrx.Committed, SetRedisTrx.Sent, SetRedisTrx.RolledBack;
    hide SetRedisTrx.Untouched, CanExec, CanCommit, FateAt, Honest;
    err := Advance(t);
    begun, halted, panicked := |t.execed|, 0, false;
    if err.Some? {
      panicked, halted := t.Rollback();
      if panicked {
        err := None;
      }
    }
    forall i | 0 <= i < begun
      ensures t.trans[i].Reported()
    {
      t.trans[i].ReportedAtLast();
    }
  }

  // ---------------------------------------------------------------- all or nothing

  /** The components belong to the zones, and remember each zone as it was: stores and scripts are snapshots. */
  ghost predicate Covers(ts: seq<SetRedisTrx>, zones: map<bytes, Zone>, order: seq<bytes>, cmd: Command,
                         stores: map<bytes, Store>, scripts: map<bytes, seq<Fate>>) {
    && |ts| == |order| && stores.Keys == scripts.Keys == zones.Keys
    && (forall k :: k in zones <==> k in order)
    && (forall i, j :: 0 <= i < j < |order| ==> order[i] != order[j])
    && (forall i :: 0 <= i < |order| ==> order[i] in zones && ts[i].zone == zones[order[i]] && ts[i].cmd == cmd)
    && (forall i :: 0 <= i < |order| ==> ts[i].store0 == stores[order[i]] && ts[i].script0 == scripts[order[i]])
  }

  /** Every zone has executed the SET and has nothing else to do. */
  ghost predicate AllWritten(zones: map<bytes, Zone>, cmd: Command, stores: map<bytes, Store>)
    requires stores.Keys == zones.Keys
    reads zones.Values
  {
    forall k :: k in zones ==> zones[k].Valid() && zones[k].store == Effect(stores[k], cmd) && zones[k].queue == []
  }

  /** Every zone is, or will be when its queue is done, what a failed dispatch leaves. */
  ghost predicate AllFinal(zones: map<bytes, Zone>, c: Course, cmd: Command,
                           stores: map<bytes, Store>, scripts: map<bytes, seq<Fate>>)
    requires stores.Keys == scripts.Keys == zones.Keys && IsCourse(c, scripts)
    reads zones.Values
  {
    forall i :: 0 <= i < |c.order| ==>
      var k := c.order[i];
      zones[k].Valid() && zones[k].Settled() == Final(c, cmd, stores[k], scripts[k], i)
  }

  lemma CommittedIsWritten(ts: seq<SetRedisTrx>, zones: map<bytes, Zone>, order: seq<bytes>, cmd: Command,
                           stores: map<bytes, Store>, scripts: map<bytes, seq<Fate>>)
    requires Covers(ts, zones, order, cmd, stores, scripts)
    requires forall i :: 0 <= i < |ts| ==> ts[i].Committed()
    ensures AllWritten(zones, cmd, stores)
  {
    hide Zone.Valid, Effect, Pending, Response, CanExec;
    forall k | k in zones
      ensures zones[k].Valid() && zones[k].store == Effect(stores[k], cmd) && zones[k].queue == []
    {
      var i :| 0 <= i < |order| && order[i] == k;
      assert ts[i].Committed();
    }
  }

  lemma EndIsFinal(ts: seq<SetRedisTrx>, zones: map<bytes, Zone>, c: Course, cmd: Command,
                   stores: map<bytes, Store>, scripts: map<bytes, seq<Fate>>)
    requires Covers(ts, zones, c.order, cmd, stores, scripts) && IsCourse(c, scripts)
    requires forall i :: 0 <= i < c.halted ==> ts[i].RolledBack()
    requires forall i :: c.halted <= i < c.begun ==> ts[i].Sent()
    requires forall i :: c.begun <= i < |ts| ==> ts[i].Untouched()
    ensures AllFinal(zones, c, cmd, stores, scripts)
  {
    hide Zone.Valid, Zone.Settled, Rolled, CanExec, Executed, FateAt;
    forall i | 0 <= i < |c.order|
      ensures
        var k := c.order[i];
        zones[k].Valid() && zones[k].Settled() == Final(c, cmd, stores[k], scripts[k], i)
    {
      assert ts[i].zone == zones[c.order[i]];
    }
  }

  lemma CoveredCommit(ts: seq<SetRedisTrx>, zones: map<bytes, Zone>, order: seq<bytes>, cmd: Command,
                      stores: map<bytes, Store>, scripts: map<bytes, seq<Fate>>)
    requires Covers(ts, zones, order, cmd, stores, scripts)
    ensures AllCommit(scripts) <==> forall i :: 0 <= i < |ts| ==> CanCommit(ts[i].script0)
  {
    hide CanCommit;
    if forall i :: 0 <= i < |ts| ==> CanCommit(ts[i].script0) {
      forall k | k in scripts
        ensures CanCommit(scripts[k])
      {
        var i :| 0 <= i < |order| && order[i] == k;
        assert CanCommit(ts[i].script0);
      }
    } else {
      var i :| 0 <= i < |ts| && !CanCommit(ts[i].script0);
      assert order[i] in scripts;
    }
  }

  /** The course of a dispatch, read off its components. */
  lemma CoveredCourse(ts: seq<SetRedisTrx>, zones: map<bytes, Zone>, c: Course, cmd: Command,
                      stores: map<bytes, Store>, scripts: map<bytes, seq<Fate>>)
    requires Covers(ts, zones, c.order, cmd, stores, scripts) && c.halted <= c.begun <= |ts|
    requires forall i :: 0 <= i < c.begun ==> CanExec(ts[i].script0)
    requires c.begun < |ts| ==> !CanExec(ts[c.begun].script0)
    requires !AllCommit(scripts) ==>
      && (forall i :: 0 <= i < c.halted ==> FateAt(ts[i].script0, 2) != NilConn)
      && (c.halted < c.begun ==> FateAt(ts[c.halted].script0, 2) == NilConn)
    ensures IsCourse(c, scripts) && |c.order| == |ts|
  {
    hide CanExec, AllCommit, FateAt;
  }

  lemma CoveredZones(ts: seq<SetRedisTrx>, zones: map<bytes, Zone>, order: seq<bytes>, cmd: Command,
                     stores: map<bytes, Store>, scripts: map<bytes, seq<Fate>>)
    requires Covers(ts, zones, order, cmd, stores, scripts)
    ensures (set c | c in ts :: c.zone) <= zones.Values
  {
    forall c | c in ts
      ensures c.zone in zones.Values
    {
      var i :| 0 <= i < |ts| && ts[i] == c;
      assert c.zone == zones[order[i]];
    }
  }

  lemma PreparedCovers(ts: seq<SetRedisTrx>, zones: map<bytes, Zone>, order: seq<bytes>, cmd: Command,
                       stores: map<bytes, Store>, scripts: map<bytes, seq<Fate>>)
    requires Distinct(zones) && |ts| == |order| && stores.Keys == scripts.Keys == zones.Keys
    requires forall k :: k in zones <==> k in order
    requires forall i, j :: 0 <= i < j < |order| ==> order[i] != order[j]
    requires forall i :: 0 <= i < |order| ==> ts[i].zone == zones[order[i]] && ts[i].cmd == cmd && ts[i].Prepared()
    requires forall k :: k in zones ==> stores[k] == zones[k].Settled() && scripts[k] == zones[k].script
    ensures Covers(ts, zones, order, cmd, stores, scripts)
    ensures forall i :: 0 <= i < |ts| ==> Honest(ts[i].script0)
  {
    hide Zone.Valid, Zone.Settled, Honest;
    forall i | 0 <= i < |ts|
      ensures ts[i].store0 == stores[order[i]] && ts[i].script0 == scripts[order[i]] && Honest(ts[i].script0)
    {
      assert ts[i].Prepared();
    }
  }

  method Begin(zones: map<bytes, Zone>, cmd: Command, own: bytes)
    returns (t: Transaction, mine: SetRedisTrx?,
             ghost order: seq<bytes>, ghost stores: map<bytes, Store>, ghost scripts: map<bytes, seq<Fate>>)
    requires cmd.Set? && Distinct(zones)
    ensures fresh(t) && fresh(t.trans) && t.Separate() && t.execed == []
    ensures forall i :: 0 <= i < |t.trans| ==>
      t.trans[i].Prepared() && !t.trans[i].flag && Honest(t.trans[i].script0)
    ensures stores == old(map k | k in zones :: zones[k].Settled())
    ensures scripts == old(map k | k in zones :: zones[k].script)
    ensures Covers(t.trans, zones, order, cmd, stores, scripts)
    ensures forall i :: 0 <= i < |order| ==> (order[i] == own <==> mine == t.trans[i])
    ensures own !in order ==> mine == null
  {
    hide Zone.Valid, Zone.Settled, Honest, SetRedisTrx.Prepared, Covers;
    stores := map k | k in zones :: zones[k].Settled();
    scripts := map k | k in zones :: zones[k].script;
    var visited := Range(zones);
    order := visited;
    t, mine := PrepareAll(zones, visited, cmd, own);
    assert Distinct(zones);
    PreparedCovers(t.trans, zones, order, cmd, stores, scripts);
  }

  lemma CommitMeans(scripts: map<bytes, seq<Fate>>)
    ensures AllCommit(scripts) <==> forall k :: k in scripts ==>
      (FateAt(scripts[k], 0).Served? || FateAt(scripts[k], 0).Refused?) && FateAt(scripts[k], 1).Served?
  {
    hide FateAt;
  }

  lemma WrittenMeans(zones: map<bytes, Zone>, cmd: Command, stores: map<bytes, Store>)
    requires cmd.Set? && stores.Keys == zones.Keys && AllWritten(zones, cmd, stores)
    ensures forall k :: k in zones ==>
      zones[k].store == stores[k][cmd.key := Str(cmd.value, cmd.expire)] && zones[k].queue == []
  {
    hide Zone.Valid;
  }

  /** The client's own request is the one its component carries. */
  lemma MineIsStuck(ts: seq<SetRedisTrx>, mine: SetRedisTrx?, zones: map<bytes, Zone>, c: Course, cmd: Command, own: bytes,
                    stores: map<bytes, Store>, scripts: map<bytes, seq<Fate>>)
    requires Covers(ts, zones, c.order, cmd, stores, scripts) && IsCourse(c, scripts)
    requires forall i :: 0 <= i < |ts| ==> ts[i].raised == (i == c.begun && Hangs(ts[i].script0))
    requires forall i :: 0 <= i < |c.order| ==> (c.order[i] == own <==> mine == ts[i])
    requires own !in c.order ==> mine == null
    ensures (mine != null && mine.raised) <==> Stuck(c, own, scripts)
  {
    hide Hangs, CanExec, AllCommit, FateAt;
    if own in c.order {
      var i :| 0 <= i < |c.order| && c.order[i] == own;
      assert mine == ts[i];
    }
  }

  /** And what the client will read is what its own zone answers to its SET, whatever was rolled back. */
  lemma MineIsReported(ts: seq<SetRedisTrx>, mine: SetRedisTrx?, zones: map<bytes, Zone>, c: Course, cmd: Command, own: bytes,
                       stores: map<bytes, Store>, scripts: map<bytes, seq<Fate>>)
    requires Covers(ts, zones, c.order, cmd, stores, scripts) && IsCourse(c, scripts)
    requires forall i :: 0 <= i < c.begun ==> ts[i].Reported()
    requires forall i :: 0 <= i < |c.order| ==> (c.order[i] == own <==> mine == ts[i])
    ensures own in c.order[..c.begun] ==>
      mine != null && zones[own].Promised(mine.ticket) == Some(Response(stores[own], cmd, FateAt(scripts[own], 1)))
  {
    hide CanExec, AllCommit, FateAt, Response, Zone.Promised;
    if own in c.order[..c.begun] {
      var i :| 0 <= i < c.begun && c.order[i] == own;
      assert ts[i].Reported() && mine == ts[i];
    }
  }

  /**
   * dispatch of SET on a key without a zone prefix. Nil without a panic means that every zone could commit, and that
   * every zone holds the new value. Otherwise the course says, zone by zone, what is left. The dispatch panics, and
   * returns nil all the same, exactly when the rollback meets a nil connection. Whatever it returns, the client waits for
   * ever exactly when the course ended at its own zone's nil connection: its session waits for the request's batch. The
   * reply in its request is its own zone's to the SET, which a rollback does not change.
   */
  method SetEverywhere(zones: map<bytes, Zone>, cmd: Command, own: bytes)
    returns (err: Option<TrxError>, panicked: bool, hangs: bool, ticket: nat,
             ghost course: Course, ghost stores: map<bytes, Store>, ghost scripts: map<bytes, seq<Fate>>)
    requires cmd.Set? && Distinct(zones)
    modifies zones.Values
    ensures stores == old(map k | k in zones :: zones[k].Settled())
    ensures scripts == old(map k | k in zones :: zones[k].script)
    ensures stores.Keys == scripts.Keys == zones.Keys && IsCourse(course, scripts)
    ensures Result(course, scripts) == (err, panicked) && hangs == Stuck(course, own, scripts)
    ensures own in course.order[..course.begun] ==>
      zones[own].Promised(ticket) == Some(Response(stores[own], cmd, FateAt(scripts[own], 1)))
    ensures err.None? && !panicked <==> forall k :: k in scripts ==>
      (FateAt(scripts[k], 0).Served? || FateAt(scripts[k], 0).Refused?) && FateAt(scripts[k], 1).Served?
    ensures err.None? && !panicked ==> forall k :: k in zones ==>
      zones[k].store == stores[k][cmd.key := Str(cmd.value, cmd.expire)] && zones[k].queue == []
    ensures if AllCommit(scripts) then AllWritten(zones, cmd, stores) else AllFinal(zones, course, cmd, stores, scripts)
  {
    hide Zone.Valid, Zone.Settled, Honest, Distinct, Covers, IsCourse, AllCommit, AllWritten, AllFinal;
    hide CanExec, CanCommit, FateAt, SetRedisTrx.Prepared, SetRedisTrx.Committed, SetRedisTrx.RolledBack;
    hide SetRedisTrx.Sent, SetRedisTrx.Untouched, SetRedisTrx.Reported, Transaction.Separate, Hangs, Stuck;
    hide Zone.Promised, Response;
    var t, mine, order, ss, fs := Begin(zones, cmd, own);
    ghost var ts := t.trans;
    stores, scripts := ss, fs;
    CoveredZones(ts, zones, order, cmd, stores, scripts);
    ghost var begun, halted;
    err, panicked, begun, halted := Conclude(t);
    assert ts == t.trans;
    course := Course(order, begun, halted);
    CoveredCommit(ts, zones, order, cmd, stores, scripts);
    CoveredCourse(ts, zones, course, cmd, stores, scripts);
    hangs := mine != null && mine.raised;
    MineIsStuck(ts, mine, zones, course, cmd, own, stores, scripts);
    MineIsReported(ts, mine, zones, course, cmd, own, stores, scripts);
    ticket := if mine != null then mine.ticket else 0;
    CommitMeans(scripts);
    if err.None? && !panicked {
      CommittedIsWritten(ts, zones, order, cmd, stores, scripts);
      WrittenMeans(zones, cmd, stores);
    } else {
      EndIsFinal(ts, zones, course, cmd, stores, scripts);
    }
  }
}
