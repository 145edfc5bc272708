/**
 * Shared backend connections (pool.go, and the zone table of router.go): who retains them, who releases them, and the
 * accounts that show it. That FillZone, SentinelSwitch and Close do not overlap is an assumption: SentinelSwitch takes
 * only the read lock, so two of them, or one and a dispatch, may run at once.
 */
module Pool {
  import opened Bytes
  import opened Wrappers

  // ---------------------------------------------------------------- the accounts

  /**
   * refs: the reference count of each address in the pool. at: the address each zone's backend has.
   * unowned: retains that no zone stands for any more, by address.
   */
  datatype Book = Book(refs: map<bytes, int>, at: map<bytes, bytes>, unowned: map<bytes, nat>)

  function Users(at: map<bytes, bytes>, addr: bytes): set<bytes> {
    set k | k in at && at[k] == addr
  }

  function Count(refs: map<bytes, int>, addr: bytes): int {
    if addr in refs then refs[addr] else 0
  }

  function Loose(unowned: map<bytes, nat>, addr: bytes): nat {
    if addr in unowned then unowned[addr] else 0
  }

  /** Every address is retained once for each zone that uses it and once for each loose retain, and not otherwise. */
  ghost predicate Balanced(b: Book) {
    && (forall a :: a in b.refs ==> b.refs[a] > 0)
    && (forall a :: Count(b.refs, a) == |Users(b.at, a)| + Loose(b.unowned, a))
  }

  function Retained(refs: map<bytes, int>, addr: bytes): map<bytes, int> {
    refs[addr := Count(refs, addr) + 1]
  }

  function Released(refs: map<bytes, int>, addr: bytes): map<bytes, int> {
    if Count(refs, addr) == 1 then refs - {addr} else refs[addr := Count(refs, addr) - 1]
  }

  function Loosened(unowned: map<bytes, nat>, addr: bytes): map<bytes, nat> {
    unowned[addr := Loose(unowned, addr) + 1]
  }

  /** A retain whose connection is not kept. */
  function RetainLoose(b: Book, addr: bytes): Book {
    b.(refs := Retained(b.refs, addr), unowned := Loosened(b.unowned, addr))
  }

  /** A new zone; the zone it overwrites, if any, is forgotten without a release. */
  function Point(b: Book, prefix: bytes, addr: bytes): Book {
    Book(Retained(b.refs, addr), b.at[prefix := addr],
         if prefix in b.at then Loosened(b.unowned, b.at[prefix]) else b.unowned)
  }

  /** A zone moves to another address: the new one is retained, then the old one released. */
  function Switch(b: Book, prefix: bytes, addr: bytes): Book
    requires prefix in b.at
  {
    b.(refs := Released(Retained(b.refs, addr), b.at[prefix]), at := b.at[prefix := addr])
  }

  /** A zone gives its connection back. */
  function Drop(b: Book, prefix: bytes): Book
    requires prefix in b.at
  {
    b.(refs := Released(b.refs, b.at[prefix]), at := b.at - {prefix})
  }

  lemma UsersAfterMove(at: map<bytes, bytes>, prefix: bytes, addr: bytes, x: bytes)
    ensures |Users(at[prefix := addr], x)| == |Users(at, x)|
            + (if x == addr then 1 else 0) - (if prefix in at && at[prefix] == x then 1 else 0)
  {
    var was, now := Users(at, x), Users(at[prefix := addr], x);
    if x == addr {
      assert now == was + {prefix};
    } else {
      assert now == was - {prefix};
    }
  }

  lemma UsersAfterDrop(at: map<bytes, bytes>, prefix: bytes, x: bytes)
    requires prefix in at
    ensures |Users(at - {prefix}, x)| == |Users(at, x)| - (if at[prefix] == x then 1 else 0)
  {
    assert Users(at - {prefix}, x) == Users(at, x) - {prefix};
  }

  lemma RetainLooseBalances(b: Book, addr: bytes)
    requires Balanced(b)
    ensures Balanced(RetainLoose(b, addr))
  {
    assert Count(b.refs, addr) == |Users(b.at, addr)| + Loose(b.unowned, addr);
  }

  lemma PointBalances(b: Book, prefix: bytes, addr: bytes)
    requires Balanced(b)
    ensures Balanced(Point(b, prefix, addr))
  {
    var b' := Point(b, prefix, addr);
    assert Count(b.refs, addr) == |Users(b.at, addr)| + Loose(b.unowned, addr);
    forall x
      ensures Count(b'.refs, x) == |Users(b'.at, x)| + Loose(b'.unowned, x)
    {
      UsersAfterMove(b.at, prefix, addr, x);
      assert Count(b.refs, x) == |Users(b.at, x)| + Loose(b.unowned, x);
    }
  }

  /** The address a zone uses is retained at least for that zone. */
  lemma UsedIsCounted(b: Book, prefix: bytes)
    requires Balanced(b) && prefix in b.at
    ensures b.at[prefix] in b.refs && b.refs[b.at[prefix]] >= 1
  {
    var a := b.at[prefix];
    assert prefix in Users(b.at, a);
    assert Count(b.refs, a) == |Users(b.at, a)| + Loose(b.unowned, a);
  }

  lemma SubsetCount(x: set<bytes>, y: set<bytes>)
    requires x <= y
    ensures |x| <= |y|
  {
    assert y == x + (y - x);
  }

  /** An address that another zone uses too is counted more than once. */
  lemma SharedIsCounted(b: Book, k: bytes)
    requires Balanced(b) && k in b.at
    ensures forall j :: j in b.at && j != k && b.at[j] == b.at[k] ==> Count(b.refs, b.at[k]) > 1
  {
    var a := b.at[k];
    assert Count(b.refs, a) == |Users(b.at, a)| + Loose(b.unowned, a);
    forall j | j in b.at && j != k && b.at[j] == a
      ensures |Users(b.at, a)| > 1
    {
      SubsetCount({j, k}, Users(b.at, a));
    }
  }

  lemma SwitchBalances(b: Book, prefix: bytes, addr: bytes)
    requires Balanced(b) && prefix in b.at && addr != b.at[prefix]
    ensures Balanced(Switch(b, prefix, addr))
  {
    var b' := Switch(b, prefix, addr);
    UsedIsCounted(b, prefix);
    forall x
      ensures Count(b'.refs, x) == |Users(b'.at, x)| + Loose(b'.unowned, x)
      ensures x in b'.refs ==> b'.refs[x] > 0
    {
      UsersAfterMove(b.at, prefix, addr, x);
      assert Count(b.refs, x) == |Users(b.at, x)| + Loose(b.unowned, x);
    }
  }

  lemma DropBalances(b: Book, prefix: bytes)
    requires Balanced(b) && prefix in b.at
    ensures Balanced(Drop(b, prefix))
  {
    var b' := Drop(b, prefix);
    UsedIsCounted(b, prefix);
    forall x
      ensures Count(b'.refs, x) == |Users(b'.at, x)| + Loose(b'.unowned, x)
      ensures x in b'.refs ==> b'.refs[x] > 0
    {
      UsersAfterDrop(b.at, prefix, x);
      assert Count(b.refs, x) == |Users(b.at, x)| + Loose(b.unowned, x);
    }
  }

  /** When no zone is left, what is still in the pool is exactly what was retained loosely. */
  lemma OnlyLooseLeft(b: Book)
    requires Balanced(b) && b.at == map[]
    ensures forall a :: Count(b.refs, a) == Loose(b.unowned, a)
    ensures (forall a :: Loose(b.unowned, a) == 0) <==> b.refs == map[]
  {
    forall a
      ensures Count(b.refs, a) == Loose(b.unowned, a)
    {
      assert Users(b.at, a) == {};
    }
    if forall a :: Loose(b.unowned, a) == 0 {
      assert forall a :: a in b.refs ==> Count(b.refs, a) == 0;
      assert b.refs.Keys == {};
    }
  }

  // ---------------------------------------------------------------- connections and the pool

  class SharedBackendConn {
    const addr: bytes
    const owner: SharedBackendConnPool
    var refcnt: int

    constructor (addr: bytes, owner: SharedBackendConnPool)
      ensures this.addr == addr && this.owner == owner && refcnt == 1
    {
      this.addr, this.owner, this.refcnt := addr, owner, 1;
    }

    method Retain() returns (panicked: bool)
      modifies this`refcnt
      ensures panicked <==> old(refcnt) <= 0
      ensures refcnt == if panicked then old(refcnt) else old(refcnt) + 1
    {
      if refcnt <= 0 {
        return true;
      }
      refcnt := refcnt + 1;
      panicked := false;
    }

    /** Closing the connections themselves is the pipeline's concern. */
    method Release() returns (panicked: bool)
      modifies this`refcnt, owner`pool
      ensures panicked <==> old(refcnt) <= 0
      ensures refcnt == if panicked then old(refcnt) else old(refcnt) - 1
      ensures owner.pool == if old(refcnt) == 1 then old(owner.pool) - {addr} else old(owner.pool)
    {
      if refcnt <= 0 {
        return true;
      }
      refcnt := refcnt - 1;
      panicked := false;
      if refcnt != 0 {
        return;
      }
      owner.pool := owner.pool - {addr};
    }
  }

  class SharedBackendConnPool {
    var pool: map<bytes, SharedBackendConn>

    constructor ()
      ensures pool == map[]
    {
      pool := map[];
    }

    /** Each connection is listed under its own address. */
    ghost predicate Valid()
      reads this`pool, pool.Values`refcnt
    {
      forall a :: a in pool ==> pool[a].addr == a && pool[a].owner == this && pool[a].refcnt > 0
    }

    ghost function Refs(): (m: map<bytes, int>)
      reads this`pool, pool.Values`refcnt
      ensures m.Keys == pool.Keys
    {
      map a | a in pool :: pool[a].refcnt
    }

    ghost predicate Lists(bc: SharedBackendConn)
      reads this`pool, pool.Values`refcnt
    {
      Valid() && bc.addr in pool && pool[bc.addr] == bc
    }

    /** Releasing a listed connection: its count goes down, and at zero it leaves the pool. */
    method Release(bc: SharedBackendConn)
      requires Lists(bc)
      modifies this`pool, pool.Values`refcnt
      ensures Valid() && Refs() == Released(old(Refs()), bc.addr)
      ensures forall a :: a in pool ==> a in old(pool) && pool[a] == old(pool[a])
    {
      var panicked := bc.Release();
      assert !panicked;
    }

    method Retain(addr: bytes) returns (bc: SharedBackendConn)
      requires Valid()
      modifies this`pool, pool.Values`refcnt
      ensures Valid() && addr in pool && pool[addr] == bc
      ensures Refs() == Retained(old(Refs()), addr)
      ensures forall a :: a in old(pool) ==> a in pool && pool[a] == old(pool[a])
      ensures fresh(pool.Values - old(pool.Values))
    {
      if addr in pool {
        bc := pool[addr];
        var panicked := bc.Retain();
        assert !panicked;
      } else {
        bc := new SharedBackendConn(addr, this);
        pool := pool[addr := bc];
      }
    }
  }

  // ---------------------------------------------------------------- the zone table

  class Zone {
    const prefix: bytes
    const isSentinelMode: bool
    const masterName: bytes
    var bc: SharedBackendConn?

    constructor (prefix: bytes, isSentinelMode: bool, masterName: bytes, bc: SharedBackendConn)
      ensures this.prefix == prefix && this.isSentinelMode == isSentinelMode && this.masterName == masterName
      ensures this.bc == bc
    {
      this.prefix, this.isSentinelMode, this.masterName, this.bc := prefix, isSentinelMode, masterName, bc;
    }

    /** Release on a nil connection does nothing; on a connection of the pool it never panics. */
    method ChangeConn(pool: SharedBackendConnPool, conn: SharedBackendConn?)
      requires bc != null ==> pool.Lists(bc)
      modifies this`bc, pool`pool, pool.pool.Values`refcnt
      ensures bc == conn
      ensures old(bc) == null ==> pool.pool == old(pool.pool) && pool.Refs() == old(pool.Refs())
      ensures old(bc) != null ==>
        && pool.Valid() && pool.Refs() == Released(old(pool.Refs()), old(bc).addr)
        && forall a :: a in pool.pool ==> a in old(pool.pool) && pool.pool[a] == old(pool.pool[a])
    {
      if bc != null {
        pool.Release(bc);
      }
      bc := conn;
    }
  }

  /** What the admin asks for: a zone at an address, or at whatever address its sentinels call masterName. */
  datatype ZoneConfig = ZoneConfig(prefix: bytes, addr: bytes, isSentinel: bool, masterName: bytes)

  /** What the sentinels of a zone answer. */
  datatype Masters = Failed | Found(byName: map<bytes, bytes>)

  datatype PoolError = ClosedRouter | GetMaster | GetMasterZero

  // ---------------------------------------------------------------- what FillZone asks for

  function Placed(at: map<bytes, bytes>, c: ZoneConfig, m: Masters): map<bytes, bytes> {
    match Target(c, m)
    case None => at
    case Some(addr) => at[c.prefix := addr]
  }

  /** The address a zone is to have: its own, or the one its sentinels give for its master's name. */
  function Target(c: ZoneConfig, m: Masters): Option<bytes> {
    if !c.isSentinel then Some(c.addr)
    else if m.Found? && c.masterName in m.byName then Some(m.byName[c.masterName])
    else None
  }

  function FillError(c: ZoneConfig, m: Masters): Option<PoolError> {
    if !c.isSentinel then None
    else match m
         case Failed => Some(GetMaster)
         case Found(byName) => if |byName| == 0 then Some(GetMasterZero) else None
  }

  /** The other masters' names with an address, among those already retained. */
  function Others(byName: map<bytes, bytes>, done: set<bytes>, masterName: bytes, addr: bytes): set<bytes> {
    set n | n in byName && n in done && n != masterName && byName[n] == addr
  }

  /** Retains of an address that no zone stands for after one zone has been filled. */
  function Strays(at: map<bytes, bytes>, c: ZoneConfig, m: Masters, addr: bytes): nat {
    (if c.isSentinel && m.Found? then |Others(m.byName, m.byName.Keys, c.masterName, addr)| else 0)
    + (if Target(c, m).Some? && c.prefix in at && at[c.prefix] == addr then 1 else 0)
  }

  /** The current zone is never filled twice. */
  predicate Skipped(at: map<bytes, bytes>, c: ZoneConfig, current: bytes) {
    c.prefix == current && current in at
  }

  /** The zone table after FillZone, and its error; the configurations after a failing one are not looked at. */
  function Fill(at: map<bytes, bytes>, cs: seq<ZoneConfig>, ms: seq<Masters>, current: bytes)
    : (map<bytes, bytes>, Option<PoolError>)
    requires |ms| == |cs|
    decreases |cs|
  {
    if cs == [] then (at, None)
    else if Skipped(at, cs[0], current) then Fill(at, cs[1..], ms[1..], current)
    else if FillError(cs[0], ms[0]).Some? then (at, FillError(cs[0], ms[0]))
    else Fill(Placed(at, cs[0], ms[0]), cs[1..], ms[1..], current)
  }

  function FillStrays(at: map<bytes, bytes>, cs: seq<ZoneConfig>, ms: seq<Masters>, current: bytes, addr: bytes): nat
    requires |ms| == |cs|
    decreases |cs|
  {
    if cs == [] then 0
    else if Skipped(at, cs[0], current) then FillStrays(at, cs[1..], ms[1..], current, addr)
    else if FillError(cs[0], ms[0]).Some? then 0
    else Strays(at, cs[0], ms[0], addr) + FillStrays(Placed(at, cs[0], ms[0]), cs[1..], ms[1..], current, addr)
  }

  /** One zone has been filled: where it points, and what was retained besides. */
  ghost predicate Filled(b: Book, b': Book, c: ZoneConfig, m: Masters) {
    && b'.at == Placed(b.at, c, m)
    && (forall a :: Loose(b'.unowned, a) == Loose(b.unowned, a) + Strays(b.at, c, m, a))
  }

  function Displaced(b: Book, c: ZoneConfig, addr: bytes): nat {
    if c.prefix in b.at && b.at[c.prefix] == addr then 1 else 0
  }

  /** Some of the masters have been retained. */
  ghost predicate Partway(b: Book, b': Book, c: ZoneConfig, byName: map<bytes, bytes>, done: set<bytes>) {
    && done <= byName.Keys
    && b'.at == (if c.masterName in done then b.at[c.prefix := byName[c.masterName]] else b.at)
    && (forall a :: Loose(b'.unowned, a) == Loose(b.unowned, a) + |Others(byName, done, c.masterName, a)|
                                            + (if c.masterName in done then Displaced(b, c, a) else 0))
  }

  lemma PartwayStarts(b: Book, c: ZoneConfig, byName: map<bytes, bytes>)
    ensures Partway(b, b, c, byName, {})
  {
    forall a
      ensures |Others(byName, {}, c.masterName, a)| == 0
    {
      assert Others(byName, {}, c.masterName, a) == {};
    }
  }

  lemma OneMoreOther(byName: map<bytes, bytes>, done: set<bytes>, masterName: bytes, n: bytes, addr: bytes)
    requires n in byName && n !in done
    ensures |Others(byName, done + {n}, masterName, addr)|
         == |Others(byName, done, masterName, addr)| + if n != masterName && byName[n] == addr then 1 else 0
  {
    var was, now := Others(byName, done, masterName, addr), Others(byName, done + {n}, masterName, addr);
    if n != masterName && byName[n] == addr {
      assert now == was + {n};
    } else {
      assert now == was;
    }
  }

  lemma PartwayContinues(b: Book, b1: Book, c: ZoneConfig, byName: map<bytes, bytes>, done: set<bytes>, n: bytes)
    requires Partway(b, b1, c, byName, done) && n in byName && n !in done
    ensures
      var b2 := if n == c.masterName then Point(b1, c.prefix, byName[n]) else RetainLoose(b1, byName[n]);
      Partway(b, b2, c, byName, done + {n})
  {
    hide Others, Retained;
    var b2 := if n == c.masterName then Point(b1, c.prefix, byName[n]) else RetainLoose(b1, byName[n]);
    forall a
      ensures Loose(b2.unowned, a) == Loose(b.unowned, a) + |Others(byName, done + {n}, c.masterName, a)|
                                      + (if c.masterName in done + {n} then Displaced(b, c, a) else 0)
    {
      OneMoreOther(byName, done, c.masterName, n, a);
    }
  }

  lemma PartwayEnds(b: Book, b': Book, c: ZoneConfig, byName: map<bytes, bytes>)
    requires Partway(b, b', c, byName, byName.Keys) && c.isSentinel
    ensures Filled(b, b', c, Found(byName))
  {
  }

  /** The address the sentinels give for a zone's master. */
  function MasterAddr(answers: map<bytes, Masters>, k: bytes, masterName: bytes): Option<bytes> {
    if k in answers && answers[k].Found? && masterName in answers[k].byName
    then Some(answers[k].byName[masterName]) else None
  }

  /** What FillZone has done: the table as specified, and so many stray retains of each address. */
  ghost predicate FilledAll(b: Book, b': Book, err: Option<PoolError>, cs: seq<ZoneConfig>, ms: seq<Masters>, current: bytes)
    requires |ms| == |cs|
  {
    && (b'.at, err) == Fill(b.at, cs, ms, current)
    && (forall a :: Loose(b'.unowned, a) == Loose(b.unowned, a) + FillStrays(b.at, cs, ms, current, a))
  }

  /** The first i configurations have been dealt with: doing the rest from here is doing all of them from b. */
  ghost predicate FillingFrom(b: Book, b1: Book, cs: seq<ZoneConfig>, ms: seq<Masters>, current: bytes, i: nat)
    requires i <= |cs| == |ms|
  {
    forall b2, err :: FilledAll(b1, b2, err, cs[i..], ms[i..], current) ==> FilledAll(b, b2, err, cs, ms, current)
  }

  lemma FillSkips(b: Book, b1: Book, cs: seq<ZoneConfig>, ms: seq<Masters>, current: bytes, i: nat)
    requires i < |cs| == |ms| && FillingFrom(b, b1, cs, ms, current, i) && Skipped(b1.at, cs[i], current)
    ensures FillingFrom(b, b1, cs, ms, current, i + 1)
  {
    forall b2, err | FilledAll(b1, b2, err, cs[i + 1..], ms[i + 1..], current)
      ensures FilledAll(b, b2, err, cs, ms, current)
    {
      assert cs[i..][1..] == cs[i + 1..] && ms[i..][1..] == ms[i + 1..];
      assert FilledAll(b1, b2, err, cs[i..], ms[i..], current);
    }
  }

  lemma FillStops(b: Book, b1: Book, cs: seq<ZoneConfig>, ms: seq<Masters>, current: bytes, i: nat)
    requires i < |cs| == |ms| && FillingFrom(b, b1, cs, ms, current, i) && !Skipped(b1.at, cs[i], current)
    requires FillError(cs[i], ms[i]).Some?
    ensures FilledAll(b, b1, FillError(cs[i], ms[i]), cs, ms, current)
  {
    assert FilledAll(b1, b1, FillError(cs[i], ms[i]), cs[i..], ms[i..], current);
  }

  lemma FillMoves(b: Book, b1: Book, b2: Book, cs: seq<ZoneConfig>, ms: seq<Masters>, current: bytes, i: nat)
    requires i < |cs| == |ms| && FillingFrom(b, b1, cs, ms, current, i) && !Skipped(b1.at, cs[i], current)
    requires FillError(cs[i], ms[i]).None? && Filled(b1, b2, cs[i], ms[i])
    ensures FillingFrom(b, b2, cs, ms, current, i + 1)
  {
    hide Strays, Placed;
    forall b3, err | FilledAll(b2, b3, err, cs[i + 1..], ms[i + 1..], current)
      ensures FilledAll(b, b3, err, cs, ms, current)
    {
      assert cs[i..][1..] == cs[i + 1..] && ms[i..][1..] == ms[i + 1..];
      assert FilledAll(b1, b3, err, cs[i..], ms[i..], current);
    }
  }

  lemma FillEnds(b: Book, b1: Book, cs: seq<ZoneConfig>, ms: seq<Masters>, current: bytes)
    requires |cs| == |ms| && FillingFrom(b, b1, cs, ms, current, |cs|)
    ensures FilledAll(b, b1, None, cs, ms, current)
  {
    assert FilledAll(b1, b1, None, cs[|cs|..], ms[|cs|..], current);
  }

  lemma FillStarts(b: Book, cs: seq<ZoneConfig>, ms: seq<Masters>, current: bytes)
    requires |cs| == |ms|
    ensures FillingFrom(b, b, cs, ms, current, 0)
  {
    assert cs[0..] == cs && ms[0..] == ms;
  }

  // ---------------------------------------------------------------- what the table holds in the end

  /** The first configuration decides what is done with it, and the others follow. */
  lemma FillUnrolled(at: map<bytes, bytes>, c: ZoneConfig, m: Masters, cs: seq<ZoneConfig>, ms: seq<Masters>, current: bytes)
    requires |ms| == |cs|
    ensures Fill(at, [], [], current) == (at, None)
    ensures Fill(at, [c] + cs, [m] + ms, current) ==
      if c.prefix == current && current in at then Fill(at, cs, ms, current)
      else if !c.isSentinel then Fill(at[c.prefix := c.addr], cs, ms, current)
      else if m.Failed? then (at, Some(GetMaster))
      else if m.byName == map[] then (at, Some(GetMasterZero))
      else if c.masterName in m.byName then Fill(at[c.prefix := m.byName[c.masterName]], cs, ms, current)
      else Fill(at, cs, ms, current)
  {
    assert ([c] + cs)[1..] == cs && ([m] + ms)[1..] == ms;
    if m.Found? && |m.byName| == 0 {
      assert m.byName == map[];
    }
  }

  /**
   * Without an error every configured zone but a current one that was there is in the table at its own address, or at the
   * one its sentinels gave for its master's name; a zone whose master they do not know, and every other, is as before.
   */
  lemma {:induction false} FillTable(at: map<bytes, bytes>, cs: seq<ZoneConfig>, ms: seq<Masters>, current: bytes, i: nat)
    requires i < |cs| == |ms| && Fill(at, cs, ms, current).1.None?
    requires forall j, k :: 0 <= j < k < |cs| ==> cs[j].prefix != cs[k].prefix
    ensures
      var after, c := Fill(at, cs, ms, current).0, cs[i];
      if c.prefix == current && current in at then c.prefix in after && after[c.prefix] == at[c.prefix]
      else if !c.isSentinel then c.prefix in after && after[c.prefix] == c.addr
      else
        && ms[i].Found? && ms[i].byName != map[]
        && (c.masterName in ms[i].byName ==> c.prefix in after && after[c.prefix] == ms[i].byName[c.masterName])
        && (c.masterName !in ms[i].byName ==>
              (c.prefix in after <==> c.prefix in at) && (c.prefix in at ==> after[c.prefix] == at[c.prefix]))
    decreases |cs|
  {
    hide Fill;
    FillFirst(at, cs, ms, current);
    var next := if Skipped(at, cs[0], current) then at else Placed(at, cs[0], ms[0]);
    if i == 0 {
      FillElsewhere(next, cs[1..], ms[1..], current, cs[0].prefix);
    } else {
      FillTable(next, cs[1..], ms[1..], current, i - 1);
    }
  }

  lemma FillFirst(at: map<bytes, bytes>, cs: seq<ZoneConfig>, ms: seq<Masters>, current: bytes)
    requires |ms| == |cs| && cs != [] && Fill(at, cs, ms, current).1.None?
    ensures
      var next := if Skipped(at, cs[0], current) then at else Placed(at, cs[0], ms[0]);
      Fill(at, cs, ms, current) == Fill(next, cs[1..], ms[1..], current)
    ensures Skipped(at, cs[0], current) || FillError(cs[0], ms[0]).None?
  {
  }

  lemma {:induction false} FillElsewhere(at: map<bytes, bytes>, cs: seq<ZoneConfig>, ms: seq<Masters>, current: bytes, k: bytes)
    requires |ms| == |cs| && forall i :: 0 <= i < |cs| ==> cs[i].prefix != k
    ensures
      var after := Fill(at, cs, ms, current).0;
      (k in after <==> k in at) && (k in at ==> after[k] == at[k])
    decreases |cs|
  {
    if cs != [] {
      FillElsewhere(at, cs[1..], ms[1..], current, k);
      FillElsewhere(Placed(at, cs[0], ms[0]), cs[1..], ms[1..], current, k);
    }
  }

  /** An error comes from a sentinel zone: its sentinels failed, or know no master at all. */
  lemma {:induction false} FillFails(at: map<bytes, bytes>, cs: seq<ZoneConfig>, ms: seq<Masters>, current: bytes) returns (i: nat)
    requires |ms| == |cs| && Fill(at, cs, ms, current).1.Some?
    ensures i < |cs| && cs[i].isSentinel
    ensures Fill(at, cs, ms, current).1 == Some(if ms[i].Failed? then GetMaster else GetMasterZero)
    ensures ms[i].Failed? || ms[i].byName == map[]
    decreases |cs|
  {
    if Skipped(at, cs[0], current) {
      var j := FillFails(at, cs[1..], ms[1..], current);
      i := j + 1;
    } else if FillError(cs[0], ms[0]).Some? {
      i := 0;
    } else {
      var j := FillFails(Placed(at, cs[0], ms[0]), cs[1..], ms[1..], current);
      i := j + 1;
    }
  }

  // ---------------------------------------------------------------- when nothing is left behind

  /** One zone: its sentinels know no other master, and it takes the place of no zone. */
  predicate Tidy(at: map<bytes, bytes>, c: ZoneConfig, m: Masters) {
    && (c.isSentinel && m.Found? ==> m.byName.Keys <= {c.masterName})
    && (Target(c, m).Some? ==> c.prefix !in at)
  }

  lemma NoOthers(byName: map<bytes, bytes>, masterName: bytes)
    ensures (forall a :: |Others(byName, byName.Keys, masterName, a)| == 0) <==> byName.Keys <= {masterName}
  {
    if byName.Keys <= {masterName} {
      forall a
        ensures |Others(byName, byName.Keys, masterName, a)| == 0
      {
        assert Others(byName, byName.Keys, masterName, a) == {};
      }
    } else {
      var n :| n in byName && n != masterName;
      assert n in Others(byName, byName.Keys, masterName, byName[n]);
    }
  }

  /** Filling one zone leaves no stray retain of any address if and only if it is tidy. */
  lemma StraysExactly(at: map<bytes, bytes>, c: ZoneConfig, m: Masters)
    ensures (forall a :: Strays(at, c, m, a) == 0) <==> Tidy(at, c, m)
  {
    hide Others;
    if c.isSentinel && m.Found? {
      NoOthers(m.byName, c.masterName);
      if !(m.byName.Keys <= {c.masterName}) {
        var a :| |Others(m.byName, m.byName.Keys, c.masterName, a)| != 0;
        assert Strays(at, c, m, a) > 0;
      }
    }
    if Target(c, m).Some? && c.prefix in at {
      assert Strays(at, c, m, at[c.prefix]) > 0;
    }
  }

  /** Every zone that is filled is tidy when its turn comes. */
  predicate AllTidy(at: map<bytes, bytes>, cs: seq<ZoneConfig>, ms: seq<Masters>, current: bytes)
    requires |ms| == |cs|
    decreases |cs|
  {
    if cs == [] then true
    else if Skipped(at, cs[0], current) then AllTidy(at, cs[1..], ms[1..], current)
    else if FillError(cs[0], ms[0]).Some? then true
    else Tidy(at, cs[0], ms[0]) && AllTidy(Placed(at, cs[0], ms[0]), cs[1..], ms[1..], current)
  }

  lemma {:induction false} TidyFillLeavesNone(at: map<bytes, bytes>, cs: seq<ZoneConfig>, ms: seq<Masters>,
                                              current: bytes, addr: bytes)
    requires |ms| == |cs| && AllTidy(at, cs, ms, current)
    ensures FillStrays(at, cs, ms, current, addr) == 0
    decreases |cs|
  {
    hide Strays, Tidy, Placed, FillError, Skipped;
    if cs == [] {
    } else if Skipped(at, cs[0], current) {
      TidyFillLeavesNone(at, cs[1..], ms[1..], current, addr);
    } else if FillError(cs[0], ms[0]).None? {
      StraysExactly(at, cs[0], ms[0]);
      TidyFillLeavesNone(Placed(at, cs[0], ms[0]), cs[1..], ms[1..], current, addr);
    }
  }

  lemma {:induction false} UntidyFillLeavesSome(at: map<bytes, bytes>, cs: seq<ZoneConfig>, ms: seq<Masters>, current: bytes)
    returns (addr: bytes)
    requires |ms| == |cs| && !AllTidy(at, cs, ms, current)
    ensures FillStrays(at, cs, ms, current, addr) > 0
    decreases |cs|
  {
    hide Strays, Tidy, Placed, FillError, Skipped;
    if Skipped(at, cs[0], current) {
      addr := UntidyFillLeavesSome(at, cs[1..], ms[1..], current);
    } else if Tidy(at, cs[0], ms[0]) {
      addr := UntidyFillLeavesSome(Placed(at, cs[0], ms[0]), cs[1..], ms[1..], current);
    } else {
      StraysExactly(at, cs[0], ms[0]);
      addr :| Strays(at, cs[0], ms[0], addr) != 0;
    }
  }

  /** FillZone leaves no stray retain of any address if and only if every zone it fills is tidy. */
  lemma FillStraysExactly(at: map<bytes, bytes>, cs: seq<ZoneConfig>, ms: seq<Masters>, current: bytes)
    requires |ms| == |cs|
    ensures (forall a :: FillStrays(at, cs, ms, current, a) == 0) <==> AllTidy(at, cs, ms, current)
  {
    hide FillStrays, AllTidy;
    if AllTidy(at, cs, ms, current) {
      forall a
        ensures FillStrays(at, cs, ms, current, a) == 0
      {
        TidyFillLeavesNone(at, cs, ms, current, a);
      }
    } else {
      var _ := UntidyFillLeavesSome(at, cs, ms, current);
    }
  }

  /** The prefix is neither in the table nor configured before; only the current zone may be configured again. */
  predicate NewPrefixes(at: map<bytes, bytes>, cs: seq<ZoneConfig>, current: bytes) {
    forall i :: 0 <= i < |cs| && cs[i].prefix != current ==>
      cs[i].prefix !in at && forall j :: 0 <= j < i ==> cs[j].prefix != cs[i].prefix
  }

  /** Without sentinels there is no error, and nothing is left behind if and only if the prefixes are new. */
  lemma {:induction false} PlainFillLeavesNoStrays(at: map<bytes, bytes>, cs: seq<ZoneConfig>, ms: seq<Masters>,
                                                   current: bytes)
    requires |ms| == |cs| && forall i :: 0 <= i < |cs| ==> !cs[i].isSentinel
    ensures (forall a :: FillStrays(at, cs, ms, current, a) == 0) <==> NewPrefixes(at, cs, current)
    ensures Fill(at, cs, ms, current).1.None?
    decreases |cs|
  {
    hide FillStrays, NewPrefixes;
    FillStraysExactly(at, cs, ms, current);
    if cs != [] {
      var next := if Skipped(at, cs[0], current) then at else Placed(at, cs[0], ms[0]);
      FillStraysExactly(next, cs[1..], ms[1..], current);
      PlainFillLeavesNoStrays(next, cs[1..], ms[1..], current);
      NewPrefixesStep(at, cs, current);
    }
    NewPrefixesEmpty(at, cs, current);
  }

  lemma NewPrefixesEmpty(at: map<bytes, bytes>, cs: seq<ZoneConfig>, current: bytes)
    ensures cs == [] ==> NewPrefixes(at, cs, current)
  {
  }

  /** One plain zone more: the first prefix is new, and the others are new once it is in the table. */
  lemma NewPrefixesStep(at: map<bytes, bytes>, cs: seq<ZoneConfig>, current: bytes)
    requires cs != []
    ensures
      var next := if Skipped(at, cs[0], current) then at else at[cs[0].prefix := cs[0].addr];
      NewPrefixes(at, cs, current) <==>
        (Skipped(at, cs[0], current) || cs[0].prefix !in at) && NewPrefixes(next, cs[1..], current)
  {
    var next := if Skipped(at, cs[0], current) then at else at[cs[0].prefix := cs[0].addr];
    var rest := cs[1..];
    if NewPrefixes(at, cs, current) {
      forall i | 0 <= i < |rest| && rest[i].prefix != current
        ensures rest[i].prefix !in next && forall j :: 0 <= j < i ==> rest[j].prefix != rest[i].prefix
      {
        assert rest[i] == cs[i + 1];
        assert forall j :: 0 <= j < i ==> rest[j] == cs[j + 1];
      }
    }
    if (Skipped(at, cs[0], current) || cs[0].prefix !in at) && NewPrefixes(next, rest, current) {
      forall i | 0 <= i < |cs| && cs[i].prefix != current
        ensures cs[i].prefix !in at && forall j :: 0 <= j < i ==> cs[j].prefix != cs[i].prefix
      {
        if i > 0 {
          assert cs[i] == rest[i - 1];
          assert forall j :: 0 < j < i ==> cs[j] == rest[j - 1];
        }
      }
    }
  }

  /** A sentinel zone whose sentinels know a second master leaves a retain of that master's address. */
  lemma SecondMasterIsStray()
    ensures
      var c := ZoneConfig([97], [], true, [1]);
      var m := Found(map[[1] := [10], [2] := [20]]);
      FillStrays(map[], [c], [m], [97], [20]) == 1 && !AllTidy(map[], [c], [m], [97])
  {
    var c := ZoneConfig([97], [], true, [1]);
    var byName: map<bytes, bytes> := map[[1] := [10], [2] := [20]];
    assert [2] in byName && byName.Keys == {[1], [2]};
    assert Others(byName, byName.Keys, [1], [20]) == {[2]};
    assert FillStrays(map[][[97] := [10]], [], [], [97], [20]) == 0;
    assert [c][1..] == [] && [Found(byName)][1..] == [];
  }

  /** A plain zone under a prefix that is in the table leaves the retain of the zone it displaces. */
  lemma DisplacedZoneIsStray()
    ensures
      var c := ZoneConfig([98], [20], false, []);
      var at: map<bytes, bytes> := map[[98] := [10]];
      FillStrays(at, [c], [Failed], [97], [10]) == 1 && !NewPrefixes(at, [c], [97])
  {
    var c := ZoneConfig([98], [20], false, []);
    var at: map<bytes, bytes> := map[[98] := [10]];
    assert FillStrays(at[[98] := [20]], [], [], [97], [10]) == 0;
    assert [c][1..] == [] && [Failed][1..] == [] && [c][0] == c;
    assert Placed(at, c, Failed) == at[[98] := [20]];
  }

  // ---------------------------------------------------------------- the router's zone table

  /** Each zone of the table is one that was there before, or was made as one of these configurations says. */
  ghost predicate Configured(was: map<bytes, Zone>, now: map<bytes, Zone>, cs: seq<ZoneConfig>) {
    && was.Keys <= now.Keys
    && forall k :: k in now ==> (k in was && now[k] == was[k]) || exists c :: c in cs && MadeAs(now[k], c, k)
  }

  ghost predicate MadeAs(z: Zone, c: ZoneConfig, k: bytes) {
    c.prefix == k == z.prefix && z.isSentinelMode == c.isSentinel && z.masterName == c.masterName
  }

  lemma ConfiguredChain(was: map<bytes, Zone>, mid: map<bytes, Zone>, now: map<bytes, Zone>, cs: seq<ZoneConfig>, c: ZoneConfig)
    requires Configured(was, mid, cs) && Configured(mid, now, [c]) && c in cs
    ensures Configured(was, now, cs)
  {
    hide MadeAs;
    forall k | k in now
      ensures (k in was && now[k] == was[k]) || exists c' :: c' in cs && MadeAs(now[k], c', k)
    {
      if k in mid && now[k] == mid[k] {
        assert (k in was && mid[k] == was[k]) || exists c' :: c' in cs && MadeAs(mid[k], c', k);
      } else {
        assert MadeAs(now[k], c, k);
      }
    }
  }

  lemma ConfiguredSame(was: map<bytes, Zone>, cs: seq<ZoneConfig>)
    ensures Configured(was, was, cs)
  {
  }

  class Router {
    const current: bytes
    const pool: SharedBackendConnPool
    var zones: map<bytes, Zone>
    var closed: bool
    ghost var unowned: map<bytes, nat>

    /** Zones are distinct objects, and the backend of each is the live pool entry of its address. */
    ghost predicate Linked()
      reads this`zones, zones.Values`bc, pool`pool, pool.pool.Values`refcnt
    {
      && pool.Valid()
      && (forall j, k :: j in zones && k in zones && j != k ==> zones[j] != zones[k])
      && (forall k :: k in zones && zones[k].bc != null ==>
            zones[k].bc.addr in pool.pool && pool.pool[zones[k].bc.addr] == zones[k].bc)
    }

    ghost function At(): (at: map<bytes, bytes>)
      reads this`zones, zones.Values`bc
      ensures at.Keys <= zones.Keys
    {
      map k | k in zones && zones[k].bc != null :: zones[k].bc.addr
    }

    ghost function Accounts(): (b: Book)
      reads this`zones, this`unowned, zones.Values`bc, pool`pool, pool.pool.Values`refcnt
      ensures b.at.Keys <= zones.Keys
    {
      Book(pool.Refs(), At(), unowned)
    }

    ghost predicate AllOpen()
      reads this`zones, zones.Values`bc
    {
      forall k :: k in zones ==> zones[k].bc != null
    }

    ghost predicate Valid()
      reads this`zones, this`unowned, this`closed, zones.Values`bc, pool`pool, pool.pool.Values`refcnt
    {
      Linked() && Balanced(Accounts()) && AllOpen() && (closed ==> zones == map[])
    }

    constructor (current: bytes)
      ensures Valid() && !closed && this.current == current && zones == map[] && unowned == map[]
      ensures fresh(pool) && pool.pool == map[] && Accounts() == Book(map[], map[], map[])
    {
      this.current := current;
      this.pool := new SharedBackendConnPool();
      this.zones, this.closed, this.unowned := map[], false, map[];
      new;
      assert forall a :: Users(At(), a) == {};
    }

    /** The account of a retain that no zone stands for. */
    ghost method Loosen(addr: bytes)
      modifies this`unowned
      ensures Accounts() == old(Accounts()).(unowned := Loosened(old(Accounts()).unowned, addr))
    {
      unowned := Loosened(unowned, addr);
    }

    /** A zone about to be overwritten leaves its retain behind. */
    ghost method Displace(prefix: bytes)
      modifies this`unowned
      ensures
        var b := old(Accounts());
        Accounts() == b.(unowned := if prefix in b.at then Loosened(b.unowned, b.at[prefix]) else b.unowned)
    {
      if prefix in At() {
        unowned := Loosened(unowned, At()[prefix]);
      }
    }

    /** pool.Retain(addr) leaves every zone as it is. */
    method Take(addr: bytes) returns (conn: SharedBackendConn)
      requires Linked()
      modifies pool`pool, pool.pool.Values`refcnt
      ensures Linked() && AllOpen() == old(AllOpen())
      ensures Accounts() == old(Accounts()).(refs := Retained(old(Accounts()).refs, addr))
      ensures conn.addr == addr && pool.Lists(conn)
      ensures fresh(pool.pool.Values - old(pool.pool.Values))
    {
      hide Retained, SharedBackendConnPool.Refs;
      conn := pool.Retain(addr);
    }

    /** zones[prefix] = a new zone on this connection. */
    method Place(c: ZoneConfig, conn: SharedBackendConn)
      requires Linked() && pool.Lists(conn)
      modifies this`zones
      ensures Linked() && Accounts() == old(Accounts()).(at := old(Accounts()).at[c.prefix := conn.addr])
      ensures old(AllOpen()) ==> AllOpen()
      ensures c.prefix in zones && zones[c.prefix].bc == conn && fresh(zones[c.prefix])
      ensures zones[c.prefix].isSentinelMode == c.isSentinel && zones[c.prefix].masterName == c.masterName
      ensures zones == old(zones)[c.prefix := zones[c.prefix]] && zones[c.prefix].prefix == c.prefix
    {
      hide SharedBackendConnPool.Valid;
      var z := new Zone(c.prefix, c.isSentinel, c.masterName, conn);
      assert z !in zones.Values;
      zones := zones[c.prefix := z];
      forall k
        ensures k in At() <==> k in old(At())[c.prefix := conn.addr]
        ensures k in At() ==> At()[k] == old(At())[c.prefix := conn.addr][k]
      {
      }
    }

    method Install(c: ZoneConfig, addr: bytes)
      requires Valid() && !closed
      modifies this`zones, this`unowned, pool`pool, pool.pool.Values`refcnt
      ensures Valid() && !closed && Accounts() == Point(old(Accounts()), c.prefix, addr)
      ensures fresh(pool.pool.Values - old(pool.pool.Values)) && fresh(zones.Values - old(zones.Values))
      ensures Configured(old(zones), zones, [c])
    {
      hide Balanced, Retained, Loosened, Linked, Accounts, At, AllOpen;
      PointBalances(Accounts(), c.prefix, addr);
      Displace(c.prefix);
      var conn := Take(addr);
      Place(c, conn);
      assert MadeAs(zones[c.prefix], c, c.prefix);
    }

    /** pool.Retain(addr) with the result thrown away. */
    method RetainOther(addr: bytes)
      requires Valid() && !closed
      modifies this`unowned, pool`pool, pool.pool.Values`refcnt
      ensures Valid() && !closed && Accounts() == RetainLoose(old(Accounts()), addr)
      ensures fresh(pool.pool.Values - old(pool.pool.Values))
    {
      hide Balanced, Retained, Loosened, Linked, Accounts, At, AllOpen;
      RetainLooseBalances(Accounts(), addr);
      Loosen(addr);
      var _ := Take(addr);
    }

    method RetainMaster(c: ZoneConfig, name: bytes, addr: bytes)
      requires Valid() && !closed
      modifies this`zones, this`unowned, pool`pool, pool.pool.Values`refcnt
      ensures Valid() && !closed
      ensures Accounts() ==
        if name == c.masterName then Point(old(Accounts()), c.prefix, addr) else RetainLoose(old(Accounts()), addr)
      ensures fresh(pool.pool.Values - old(pool.pool.Values)) && fresh(zones.Values - old(zones.Values))
      ensures Configured(old(zones), zones, [c])
    {
      hide *;
      if name == c.masterName {
        Install(c, addr);
      } else {
        ConfiguredSame(zones, [c]);
        RetainOther(addr);
      }
    }

    method RetainNext(ghost b: Book, ghost was: map<bytes, Zone>, ghost done: set<bytes>,
                      c: ZoneConfig, byName: map<bytes, bytes>, name: bytes)
      requires Valid() && !closed && name in byName && name !in done && Partway(b, Accounts(), c, byName, done)
      requires Configured(was, zones, [c])
      modifies this`zones, this`unowned, pool`pool, pool.pool.Values`refcnt
      ensures Valid() && !closed && Partway(b, Accounts(), c, byName, done + {name})
      ensures fresh(pool.pool.Values - old(pool.pool.Values)) && fresh(zones.Values - old(zones.Values))
      ensures Configured(was, zones, [c])
    {
      hide *;
      PartwayContinues(b, Accounts(), c, byName, done, name);
      ghost var mid := zones;
      RetainMaster(c, name, byName[name]);
      ConfiguredChain(was, mid, zones, [c], c);
    }

    /** The masters' loop of FillZone, in whatever order the map is ranged over. */
    method FillMasters(c: ZoneConfig, byName: map<bytes, bytes>)
      requires Valid() && !closed && c.isSentinel
      modifies this`zones, this`unowned, pool`pool, pool.pool.Values`refcnt
      ensures Valid() && !closed && Filled(old(Accounts()), Accounts(), c, Found(byName))
      ensures fresh(pool.pool.Values - old(pool.pool.Values)) && fresh(zones.Values - old(zones.Values))
      ensures Configured(old(zones), zones, [c])
    {
      hide *;
      var todo := byName.Keys;
      ghost var b, done := Accounts(), {};
      PartwayStarts(b, c, byName);
      ghost var was := zones;
      ConfiguredSame(was, [c]);
      while todo != {}
        invariant Valid() && !closed && todo <= byName.Keys && done == byName.Keys - todo
        invariant Partway(b, Accounts(), c, byName, done) && Configured(was, zones, [c])
        invariant fresh(pool.pool.Values - old(pool.pool.Values)) && fresh(zones.Values - old(zones.Values))
        decreases |todo|
      {
        var n :| n in todo;
        RetainNext(b, was, done, c, byName, n);
        todo := todo - {n};
        done := done + {n};
      }
      assert done == byName.Keys;
      PartwayEnds(b, Accounts(), c, byName);
    }

    /** One round of FillZone's loop. */
    method FillOne(c: ZoneConfig, m: Masters) returns (err: Option<PoolError>)
      requires Valid() && !closed
      modifies this`zones, this`unowned, pool`pool, pool.pool.Values`refcnt
      ensures Valid() && !closed && err == FillError(c, m)
      ensures if err.Some? then Accounts() == old(Accounts()) else Filled(old(Accounts()), Accounts(), c, m)
      ensures fresh(pool.pool.Values - old(pool.pool.Values)) && fresh(zones.Values - old(zones.Values))
      ensures Configured(old(zones), zones, [c])
    {
      hide Valid, Accounts, Configured;
      ConfiguredSame(zones, [c]);
      if c.isSentinel {
        if m.Failed? {
          return Some(GetMaster);
        }
        if |m.byName| == 0 {
          return Some(GetMasterZero);
        }
        FillMasters(c, m.byName);
      } else {
        Install(c, c.addr);
      }
      err := None;
    }

    method FillZone(cs: seq<ZoneConfig>, ms: seq<Masters>) returns (err: Option<PoolError>)
      requires Valid() && |ms| == |cs|
      modifies this`zones, this`unowned, pool`pool, pool.pool.Values`refcnt
      ensures Valid() && closed == old(closed)
      ensures closed ==> err == Some(ClosedRouter) && Accounts() == old(Accounts())
      ensures !closed ==> FilledAll(old(Accounts()), Accounts(), err, cs, ms, current)
      ensures fresh(pool.pool.Values - old(pool.pool.Values)) && fresh(zones.Values - old(zones.Values))
      ensures Configured(old(zones), zones, cs)
    {
      hide Valid, Accounts, FilledAll, FillingFrom, Filled, FillError, Skipped, Configured;
      ghost var was := zones;
      ConfiguredSame(was, cs);
      if closed {
        return Some(ClosedRouter);
      }
      ghost var b := Accounts();
      FillStarts(b, cs, ms, current);
      var i := 0;
      while i < |cs|
        invariant 0 <= i <= |cs| && Valid() && !closed
        invariant FillingFrom(b, Accounts(), cs, ms, current, i) && Configured(was, zones, cs)
        invariant fresh(pool.pool.Values - old(pool.pool.Values)) && fresh(zones.Values - old(zones.Values))
      {
        ghost var b1 := Accounts();
        var skip := IsFilled(cs[i]);
        if skip {
          FillSkips(b, b1, cs, ms, current, i);
        } else {
          ghost var mid := zones;
          err := FillOne(cs[i], ms[i]);
          ConfiguredChain(was, mid, zones, cs, cs[i]);
          if err.Some? {
            FillStops(b, b1, cs, ms, current, i);
            return;
          }
          FillMoves(b, b1, Accounts(), cs, ms, current, i);
        }
        i := i + 1;
      }
      FillEnds(b, Accounts(), cs, ms, current);
      err := None;
    }

    /** The current zone, when there already is one. */
    method IsFilled(c: ZoneConfig) returns (r: bool)
      requires Valid()
      ensures r == Skipped(Accounts().at, c, current)
    {
      r := c.prefix == current && current in zones;
    }

    /** A zone gives its connection back and gets another one, or none. */
    method Replace(k: bytes, next: SharedBackendConn?)
      requires Linked() && k in Accounts().at
      requires next != null ==> pool.Lists(next) && next.addr != Accounts().at[k]
      requires
        var b := Accounts();
        forall j :: j in b.at && j != k && b.at[j] == b.at[k] ==> Count(b.refs, b.at[k]) > 1
      modifies {zones[k]}`bc, pool`pool, pool.pool.Values`refcnt
      ensures Linked() && (next != null && old(AllOpen()) ==> AllOpen())
      ensures pool.pool.Values <= old(pool.pool.Values)
      ensures
        var b := old(Accounts());
        Accounts() == b.(refs := Released(b.refs, b.at[k]), at := if next == null then b.at - {k} else b.at[k := next.addr])
    {
      hide Balanced, Retained, Users, SharedBackendConnPool.Refs, SharedBackendConnPool.Valid;
      var z := zones[k];
      ghost var was := z.bc.addr;
      z.ChangeConn(pool, next);
      forall j | j in zones && zones[j].bc != null
        ensures zones[j].bc.addr in pool.pool && pool.pool[zones[j].bc.addr] == zones[j].bc
      {
        assert j != k ==> j in old(At()) && old(At())[j] == zones[j].bc.addr;
        assert zones[j].bc.addr in pool.Refs();
      }
      AtAfter(k, old(At()));
    }

    /** One zone's connection has changed. */
    lemma AtAfter(k: bytes, was: map<bytes, bytes>)
      requires k in zones
      requires forall j :: j in zones && j != k ==>
        (zones[j].bc == null ==> j !in was) && (zones[j].bc != null ==> j in was && was[j] == zones[j].bc.addr)
      requires forall j :: j in was ==> j in zones
      ensures At() == if zones[k].bc == null then was - {k} else was[k := zones[k].bc.addr]
    {
    }

    /** SentinelSwitch for one zone whose master has moved. */
    method SwitchZone(k: bytes, addr: bytes)
      requires Valid() && !closed && k in Accounts().at && Accounts().at[k] != addr
      modifies zones.Values`bc, pool`pool, pool.pool.Values`refcnt
      ensures Valid() && !closed && Accounts() == Switch(old(Accounts()), k, addr)
      ensures fresh(pool.pool.Values - old(pool.pool.Values))
    {
      hide Balanced, Released, Users, Linked, AllOpen, Accounts, SharedBackendConnPool.Lists;
      SwitchBalances(Accounts(), k, addr);
      SharedIsCounted(Accounts(), k);
      var conn := Take(addr);
      Replace(k, conn);
    }

    /** Close for one zone. */
    method DropZone(k: bytes)
      requires Linked() && Balanced(Accounts()) && k in Accounts().at
      modifies zones.Values`bc, pool`pool, pool.pool.Values`refcnt
      ensures pool.pool.Values <= old(pool.pool.Values)
      ensures Linked() && Balanced(Accounts()) && Accounts() == Drop(old(Accounts()), k)
    {
      hide Balanced, Released, Users, Linked, AllOpen, Accounts, SharedBackendConnPool.Lists;
      DropBalances(Accounts(), k);
      SharedIsCounted(Accounts(), k);
      Replace(k, null);
    }

    /** The zone follows its sentinels, or stays where it was. */
    ghost predicate Follows(k: bytes, was: bytes, now: bytes, answers: map<bytes, Masters>)
      requires k in zones
      reads this`zones
    {
      now == was || (zones[k].isSentinelMode && MasterAddr(answers, k, zones[k].masterName) == Some(now))
    }

    ghost predicate OnMaster(k: bytes, now: bytes, answers: map<bytes, Masters>)
      requires k in zones
      reads this`zones
    {
      zones[k].isSentinelMode ==> MasterAddr(answers, k, zones[k].masterName) == Some(now)
    }

    /** The zone's sentinels give no address for its master, either with an error or without one. */
    predicate Unanswered(k: bytes, answers: map<bytes, Masters>, err: Option<PoolError>)
      requires k in zones
      reads this`zones
    {
      && zones[k].isSentinelMode
      && MasterAddr(answers, k, zones[k].masterName).None?
      && err == if k in answers && answers[k].Found? then None else Some(GetMaster)
    }

    /** Part of a round: the zones already visited are on their masters, the others have not moved. */
    ghost predicate Rounded(b: Book, b': Book, todo: set<bytes>, answers: map<bytes, Masters>)
      reads this`zones
    {
      && b'.unowned == b.unowned && b'.at.Keys == b.at.Keys == zones.Keys
      && (forall k :: k in b.at ==> Follows(k, b.at[k], b'.at[k], answers))
      && (forall k :: k in b.at && k !in todo ==> OnMaster(k, b'.at[k], answers))
      && (forall k :: k in b.at && k in todo ==> b'.at[k] == b.at[k])
    }

    lemma RoundStarts(b: Book, answers: map<bytes, Masters>)
      requires b.at.Keys == zones.Keys
      ensures Rounded(b, b, zones.Keys, answers)
    {
    }

    lemma RoundContinues(b: Book, b1: Book, b2: Book, todo: set<bytes>, k: bytes, answers: map<bytes, Masters>)
      requires Rounded(b, b1, todo, answers) && k in todo && k in b1.at
      requires k in b2.at && b2.unowned == b1.unowned && b2.at == b1.at[k := b2.at[k]]
      requires Follows(k, b1.at[k], b2.at[k], answers) && OnMaster(k, b2.at[k], answers)
      ensures Rounded(b, b2, todo - {k}, answers)
    {
    }

    /** What a round has done, said on the answers themselves. */
    lemma RoundMeans(b: Book, b': Book, todo: set<bytes>, answers: map<bytes, Masters>)
      requires Rounded(b, b', todo, answers)
      ensures b.at.Keys == b'.at.Keys == zones.Keys && b'.unowned == b.unowned
      ensures todo == {} ==> forall k :: k in zones && zones[k].isSentinelMode ==>
        && k in answers && answers[k].Found? && zones[k].masterName in answers[k].byName
        && b'.at[k] == answers[k].byName[zones[k].masterName]
      ensures forall k :: k in zones && b'.at[k] != b.at[k] ==>
        && zones[k].isSentinelMode
        && k in answers && answers[k].Found? && zones[k].masterName in answers[k].byName
        && b'.at[k] == answers[k].byName[zones[k].masterName]
    {
    }

    lemma UnansweredMeans(k: bytes, answers: map<bytes, Masters>, err: Option<PoolError>)
      requires k in zones && Unanswered(k, answers, err)
      ensures zones[k].isSentinelMode
      ensures if k in answers && answers[k].Found? then zones[k].masterName !in answers[k].byName && err.None?
              else err == Some(GetMaster)
    {
    }

    /** One zone; false when its sentinels give no address for its master. */
    method FollowZone(k: bytes, answers: map<bytes, Masters>) returns (err: Option<PoolError>, ok: bool)
      requires Valid() && !closed && k in Accounts().at
      modifies zones.Values`bc, pool`pool, pool.pool.Values`refcnt
      ensures Valid() && !closed && fresh(pool.pool.Values - old(pool.pool.Values))
      ensures !ok ==> Accounts() == old(Accounts()) && Unanswered(k, answers, err)
      ensures ok ==>
        var b, b' := old(Accounts()), Accounts();
        && k in b'.at && b'.unowned == b.unowned && b'.at == b.at[k := b'.at[k]]
        && Follows(k, b.at[k], b'.at[k], answers) && OnMaster(k, b'.at[k], answers) && err.None?
    {
      hide Valid, Accounts, Released, Retained, MasterAddr;
      ghost var b := Accounts();
      if zones[k].isSentinelMode {
        var addr := MasterAddr(answers, k, zones[k].masterName);
        if addr.None? {
          return if k in answers && answers[k].Found? then None else Some(GetMaster), false;
        }
        var was := CurrentAddr(k);
        if was != addr.value {
          SwitchZone(k, addr.value);
        }
      }
      assert b.at == b.at[k := b.at[k]];
      err, ok := None, true;
    }

    method FollowNext(ghost b: Book, ghost todo: set<bytes>, k: bytes, answers: map<bytes, Masters>)
      returns (err: Option<PoolError>, ok: bool)
      requires Valid() && !closed && k in todo && k in zones && Rounded(b, Accounts(), todo, answers)
      modifies zones.Values`bc, pool`pool, pool.pool.Values`refcnt
      ensures Valid() && !closed && fresh(pool.pool.Values - old(pool.pool.Values))
      ensures Rounded(b, Accounts(), if ok then todo - {k} else todo, answers)
      ensures if ok then err.None? else Unanswered(k, answers, err)
    {
      hide *;
      OpenIsAt();
      ghost var b1 := Accounts();
      err, ok := FollowZone(k, answers);
      if ok {
        RoundContinues(b, b1, Accounts(), todo, k, answers);
      }
    }

    /** The zones in any order, up to the first one without an answer. */
    method Round(answers: map<bytes, Masters>) returns (err: Option<PoolError>, complete: bool, left: set<bytes>)
      requires Valid() && !closed
      modifies zones.Values`bc, pool`pool, pool.pool.Values`refcnt
      ensures Valid() && !closed && (complete ==> err.None? && left == {})
      ensures Rounded(old(Accounts()), Accounts(), left, answers)
      ensures !complete ==> exists k :: k in zones && Unanswered(k, answers, err)
      ensures fresh(pool.pool.Values - old(pool.pool.Values))
    {
      hide *;
      OpenIsAt();
      ghost var b := Accounts();
      RoundStarts(b, answers);
      left := zones.Keys;
      err, complete := None, true;
      while complete && left != {}
        invariant Valid() && !closed && left <= zones.Keys
        invariant if complete then err.None? else exists k :: k in zones && Unanswered(k, answers, err)
        invariant Rounded(b, Accounts(), left, answers)
        invariant fresh(pool.pool.Values - old(pool.pool.Values))
        decreases complete, |left|
      {
        var k :| k in left;
        err, complete := FollowNext(b, left, k, answers);
        if complete {
          left := left - {k};
        }
      }
    }

    /**
     * A completed round leaves every sentinel zone on the address its sentinels give for its master, and in any round a
     * zone that moves moves there. The first zone without an answer ends the round: when its sentinels answered but do not
     * know the master's name, it does so without an error.
     */
    method SentinelSwitch(answers: map<bytes, Masters>)
      returns (err: Option<PoolError>, complete: bool, ghost left: set<bytes>)
      requires Valid()
      modifies zones.Values`bc, pool`pool, pool.pool.Values`refcnt
      ensures Valid() && closed == old(closed) && (closed ==> err == Some(ClosedRouter) && !complete)
      ensures Rounded(old(Accounts()), Accounts(), left, answers) && (complete ==> err.None? && left == {})
      ensures Accounts().at.Keys == old(Accounts()).at.Keys == zones.Keys && Accounts().unowned == old(Accounts()).unowned
      ensures complete ==> forall k :: k in zones && zones[k].isSentinelMode ==>
        && k in answers && answers[k].Found? && zones[k].masterName in answers[k].byName
        && Accounts().at[k] == answers[k].byName[zones[k].masterName]
      ensures forall k :: k in zones && Accounts().at[k] != old(Accounts()).at[k] ==>
        && zones[k].isSentinelMode
        && k in answers && answers[k].Found? && zones[k].masterName in answers[k].byName
        && Accounts().at[k] == answers[k].byName[zones[k].masterName]
      ensures !closed && !complete ==>
        exists k :: k in zones && zones[k].isSentinelMode && (
          if k in answers && answers[k].Found? then zones[k].masterName !in answers[k].byName && err.None?
          else err == Some(GetMaster))
      ensures fresh(pool.pool.Values - old(pool.pool.Values))
    {
      hide *;
      OpenIsAt();
      ghost var b := Accounts();
      if closed {
        RoundStarts(b, answers);
        return Some(ClosedRouter), false, zones.Keys;
      }
      ghost var todo;
      err, complete, todo := Round(answers);
      left := todo;
      RoundMeans(b, Accounts(), left, answers);
      if !complete {
        var k :| k in zones && Unanswered(k, answers, err);
        UnansweredMeans(k, answers, err);
      }
    }

    method CurrentAddr(k: bytes) returns (addr: bytes)
      requires Valid() && k in zones
      ensures k in Accounts().at && addr == Accounts().at[k]
    {
      addr := zones[k].bc.addr;
    }

    lemma OpenIsAt()
      requires Valid()
      ensures Accounts().at.Keys == zones.Keys
    {
    }

    lemma OpenMeans()
      requires Valid()
      ensures Accounts().at.Keys == zones.Keys && AllOpen()
      ensures forall k :: k in zones ==> zones[k].bc != null && Accounts().at[k] == zones[k].bc.addr
    {
    }

    /** Nothing more is stray after FillZone, at any address, if and only if every zone it filled was tidy. */
    lemma FilledTidily(b: Book, b': Book, err: Option<PoolError>, cs: seq<ZoneConfig>, ms: seq<Masters>)
      requires |ms| == |cs| && FilledAll(b, b', err, cs, ms, current)
      ensures (forall a :: Loose(b'.unowned, a) == Loose(b.unowned, a)) <==> AllTidy(b.at, cs, ms, current)
    {
      hide Loose, FillStrays, AllTidy, Fill;
      if AllTidy(b.at, cs, ms, current) {
        forall a
          ensures Loose(b'.unowned, a) == Loose(b.unowned, a)
        {
          TidyFillLeavesNone(b.at, cs, ms, current, a);
        }
      } else {
        var a := UntidyFillLeavesSome(b.at, cs, ms, current);
        assert Loose(b'.unowned, a) != Loose(b.unowned, a);
      }
    }

    /** What stays in the pool after Close is exactly what nobody owned before it. */
    method Close()
      requires Valid()
      modifies this`zones, this`closed, zones.Values`bc, pool`pool, pool.pool.Values`refcnt
      ensures Valid() && closed && zones == map[]
      ensures unowned == old(unowned)
      ensures !old(closed) ==> forall a :: Count(pool.Refs(), a) == Loose(unowned, a)
      ensures !old(closed) ==> (pool.pool.Keys == {} <==> forall a :: Loose(unowned, a) == 0)
    {
      if closed {
        return;
      }
      hide Valid, Balanced, Linked, Accounts;
      ReleaseAll();
      Forget();
      AfterClose();
    }

    /** router.zones = nil, router.closed = true. */
    method Forget()
      requires Linked() && Balanced(Accounts()) && Accounts().at == map[]
      modifies this`zones, this`closed
      ensures Valid() && closed && zones == map[]
    {
      hide Balanced;
      zones := map[];
      closed := true;
      assert At() == map[];
    }

    lemma AfterClose()
      requires Valid() && zones == map[]
      ensures forall a :: Count(pool.Refs(), a) == Loose(unowned, a)
      ensures pool.pool.Keys == {} <==> forall a :: Loose(unowned, a) == 0
    {
      hide Linked, Balanced;
      assert At() == map[];
      OnlyLooseLeft(Accounts());
    }

    method ReleaseAll()
      requires Valid()
      modifies zones.Values`bc, pool`pool, pool.pool.Values`refcnt
      ensures Linked() && Balanced(Accounts()) && Accounts().at == map[]
    {
      hide Balanced, Linked, Accounts, AllOpen, Released;
      OpenIsAt();
      ghost var conns := pool.pool.Values;
      var todo := zones.Keys;
      while todo != {}
        invariant Linked() && Balanced(Accounts()) && Accounts().at.Keys == todo
        invariant pool.pool.Values <= conns
        decreases |todo|
      {
        var k :| k in todo;
        DropZone(k);
        todo := todo - {k};
      }
    }
  }

  /**
   * A router's life: its zones are filled in once, follow their masters, and are closed. It gives every connection back
   * if and only if every zone was tidy when it was filled in.
   */
  method Live(current: bytes, cs: seq<ZoneConfig>, ms: seq<Masters>, answers: map<bytes, Masters>)
    returns (left: set<bytes>)
    requires |ms| == |cs|
    ensures left == {} <==> AllTidy(map[], cs, ms, current)
  {
    hide Router.Valid, FilledAll, AllTidy, SharedBackendConnPool.Refs, Configured, Router.Rounded, Router.At, Router.AllOpen;
    var r := new Router(current);
    ghost var before := r.Accounts();
    var err := r.FillZone(cs, ms);
    r.FilledTidily(before, r.Accounts(), err, cs, ms);
    var _, _, _ := r.SentinelSwitch(answers);
    r.Close();
    left := r.pool.pool.Keys;
  }
}
