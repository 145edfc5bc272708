/** dispatch (router.go): the zone a key names, the read-through GET, and SET with replication. */
module Router {
  import opened Bytes
  import opened Wrappers
  import opened Zones
  import Numbers
  import Transaction

  datatype RouterError = ZoneIsNotConfig | ZoneIsNotMatch | Trx(error: Transaction.TrxError)

  // ---------------------------------------------------------------- the zone a key names

  predicate OccursAt(key: bytes, sep: bytes, i: nat) {
    i <= |key| && sep <= key[i..]
  }

  /** strings.Index(key[from..], sep), as a position in key. */
  function Find(key: bytes, sep: bytes, from: nat): (r: Option<nat>)
    requires sep != [] && from <= |key|
    ensures r.Some? ==> from <= r.value && OccursAt(key, sep, r.value)
    ensures r.Some? ==> forall i :: from <= i < r.value ==> !OccursAt(key, sep, i)
    ensures r.None? ==> forall i :: from <= i ==> !OccursAt(key, sep, i)
    decreases |key| - from
  {
    if from + |sep| > |key| then None
    else if OccursAt(key, sep, from) then Some(from)
    else Find(key, sep, from + 1)
  }

  /** strings.Split(key, sep)[0], or None when the separator does not occur. */
  function ZonePart(key: bytes, sep: bytes): Option<bytes>
    requires sep != []
  {
    match Find(key, sep, 0)
    case None => None
    case Some(i) => Some(key[..i])
  }

  /**
   * A key built as prefix, separator, rest names that prefix, for every rest, if and only if the separator does not
   * start earlier: inside the prefix, or across its end.
   */
  lemma PrefixedKeyNamesItsZone(prefix: bytes, sep: bytes, rest: bytes)
    requires sep != []
    ensures ZonePart(prefix + sep + rest, sep) == Some(prefix) <==>
      forall i :: 0 <= i < |prefix| ==> !OccursAt(prefix + sep, sep, i)
  {
    var key := prefix + sep + rest;
    assert key[|prefix|..] == sep + rest;
    assert OccursAt(key, sep, |prefix|);
    forall i | 0 <= i < |prefix|
      ensures OccursAt(key, sep, i) <==> OccursAt(prefix + sep, sep, i)
    {
      assert key[i..] == (prefix + sep)[i..] + rest;
      assert |sep| <= |(prefix + sep)[i..]|;
      assert (prefix + sep)[i..][..|sep|] == key[i..][..|sep|];
    }
    assert key[..|prefix|] == prefix;
  }

  /** For every key: the zone part ends at the first separator, and without a separator there is none. */
  lemma ZonePartExactly(key: bytes, sep: bytes)
    requires sep != []
    ensures ZonePart(key, sep).None? <==> forall i: nat :: i <= |key| ==> !(sep <= key[i..])
    ensures ZonePart(key, sep).Some? ==>
      var p := ZonePart(key, sep).value;
      && |p| <= |key| && p == key[..|p|] && sep <= key[|p|..]
      && forall i: nat :: i < |p| ==> !(sep <= key[i..])
  {
    assert forall i: nat :: i <= |key| ==> (OccursAt(key, sep, i) <==> sep <= key[i..]);
  }

  // ---------------------------------------------------------------- what a GET does

  /** The value strconv.Atoi returns: out of range it saturates, and text that is no number gives 0. */
  function Atoi(s: bytes): int {
    match Numbers.ParseInt(s)
    case Some(n) => n
    case None =>
      var body := Numbers.Unsigned(s);
      if body == [] || !Numbers.AllDigits(body) then 0
      else if s[0] == Numbers.MINUS then -Numbers.INT64_LIMIT
      else Numbers.INT64_LIMIT - 1
  }

  lemma AtoiText(n: int)
    requires Numbers.IsInt64(n)
    ensures Atoi(Numbers.FormatInt(n)) == n
  {
    Numbers.ParseFormat(n);
  }

  /** A text that is not digits behind a sign reads as 0, one that is too large as the largest number of its sign. */
  lemma AtoiOfOtherText(s: bytes)
    requires Numbers.ParseInt(s).None?
    ensures s == [] || !Numbers.AllDigits(Numbers.Unsigned(s)) ==> Atoi(s) == 0
    ensures s != [] && Numbers.AllDigits(s) ==> Atoi(s) == 0x7FFF_FFFF_FFFF_FFFF
    ensures |s| > 1 && s[0] == 45 && Numbers.AllDigits(s[1..]) ==> Atoi(s) == -0x8000_0000_0000_0000
  {
    hide Numbers.Value;
    if s != [] && Numbers.AllDigits(s) {
      assert Numbers.IsDigit(s[0]);
    }
  }

  /** A negative expire leaves the EX argument out. */
  function SetRequest(key: bytes, value: bytes, expire: int): Command {
    Set(key, value, if expire < 0 then None else Some(expire))
  }

  /**
   * The reply left in the request, whether the home zone was asked, what was then written locally, and whether the
   * request hangs: PushBack counts its batch up before it finds the connection nil, and nothing counts it down again.
   */
  datatype Read = Read(resp: Option<Reply>, asked: bool, fill: Option<Command>, hangs: bool)

  /** What the request's Resp holds after one more Forward and Wait; a nil connection panics and leaves it. */
  function Ask(previous: Option<Reply>, store: Store, cmd: Command, fate: Fate): Option<Reply> {
    RespAfter(previous, Response(store, cmd, fate))
  }

  function ReadHome(local: Reply, home: Store, fates: seq<Fate>, key: bytes): Read {
    match Ask(Some(local), home, Get(key), FateAt(fates, 0))
    case None => Read(None, true, None, false)
    case Some(found) =>
      if FateAt(fates, 0) == NilConn then Read(Some(found), true, None, true)
      else if Text(found) == [] then Read(Some(found), true, None, false)
      else
        match Ask(None, home, Ttl(key), FateAt(fates, 1))
        case None => Read(Some(found), true, None, false)
        case Some(t) =>
          var ttl := Atoi(Text(t));
          Read(Some(found), true, Some(SetRequest(key, Text(found), if ttl > 0 then ttl else -1)), false)
  }

  /** A GET of a key of another, configured zone. */
  function ReadThrough(local: Store, lfates: seq<Fate>, home: Store, hfates: seq<Fate>, key: bytes): Read {
    match Ask(None, local, Get(key), FateAt(lfates, 0))
    case None => Read(None, false, None, FateAt(lfates, 0) == NilConn)
    case Some(r) => if Text(r) != [] then Read(Some(r), false, None, false) else ReadHome(r, home, hfates, key)
  }

  // ---------------------------------------------------------------- read-through is transparent

  /** What a client of this router reads at a foreign key. */
  function Through(local: Store, home: Store, key: bytes): bytes {
    if View(local, key) != [] then View(local, key) else View(home, key)
  }

  /** The local store after the GET, when the fill is executed. */
  function Filled(local: Store, read: Read): Store {
    if read.fill.Some? then Effect(local, read.fill.value) else local
  }

  ghost predicate AllServed(fates: seq<Fate>) {
    forall i :: FateAt(fates, i) == Served
  }

  /** A string whose time to live, if it has one, is a 64-bit number, or nothing. */
  predicate Readable(store: Store, key: bytes) {
    key in store ==> store[key].Str? && (store[key].ttl.Some? ==> Numbers.IsInt64(store[key].ttl.value))
  }

  lemma TtlText(home: Store, key: bytes)
    requires Readable(home, key) && key in home
    ensures Atoi(Text(Answer(home, Ttl(key)))) == if home[key].ttl.Some? then home[key].ttl.value else -1
  {
    Numbers.ParseFormat(if home[key].ttl.Some? then home[key].ttl.value else -1);
  }

  /** What one GET leaves in the request, for every fate: its reply, none, or nothing new. */
  lemma GetLeaves(previous: Option<Reply>, store: Store, key: bytes, fate: Fate)
    ensures Ask(previous, store, Get(key), fate) ==
      match fate
      case Served =>
        Some(if key !in store then Bulk(None)
             else if store[key].Str? then Bulk(Some(store[key].value)) else ErrorReply(WRONG_TYPE))
      case Lost(_) => None
      case Refused(text) => Some(ErrorReply(text))
      case Full => previous
      case NilConn => previous
  {
  }

  /** What is written locally is the home zone's value, with an expiry exactly when the home TTL is positive. */
  lemma FillCopiesHome(local: Store, lfates: seq<Fate>, home: Store, hfates: seq<Fate>, key: bytes)
    requires AllServed(lfates) && AllServed(hfates) && Readable(local, key) && Readable(home, key)
    ensures
      var read := ReadThrough(local, lfates, home, hfates, key);
      && read.resp.Some? && Text(read.resp.value) == Through(local, home, key)
      && (read.asked <==> View(local, key) == [])
      && (read.fill.Some? <==> View(local, key) == [] && View(home, key) != [])
      && !read.hangs
      && (read.fill.Some? ==>
            key !in local || local[key].value == [])
      && (read.fill.Some? ==>
            read.fill.value == Set(key, home[key].value, if home[key].ttl == Some(0) then None else home[key].ttl))
  {
    hide Atoi, Numbers.FormatInt;
    assert FateAt(lfates, 0) == FateAt(hfates, 0) == FateAt(hfates, 1) == Served;
    if key in home {
      TtlText(home, key);
    }
  }

  /** The fill changes what no client reads, for any key, and the repeated GET is answered locally and alike. */
  lemma ReadThroughIsTransparent(local: Store, lfates: seq<Fate>, home: Store, hfates: seq<Fate>, key: bytes,
                                 later: seq<Fate>, hlater: seq<Fate>)
    requires AllServed(lfates) && AllServed(hfates) && Readable(local, key) && Readable(home, key)
    requires AllServed(later) && AllServed(hlater)
    ensures
      var read := ReadThrough(local, lfates, home, hfates, key);
      var again := ReadThrough(Filled(local, read), later, home, hlater, key);
      && (forall x :: Through(Filled(local, read), home, x) == Through(local, home, x))
      && read.resp.Some? && again.resp.Some? && Text(again.resp.value) == Text(read.resp.value)
      && (Text(read.resp.value) != [] ==> !again.asked && again.fill.None?)
  {
    hide ReadThrough, ReadHome, Answer;
    FillCopiesHome(local, lfates, home, hfates, key);
    var read := ReadThrough(local, lfates, home, hfates, key);
    FillCopiesHome(Filled(local, read), later, home, hlater, key);
  }

  /**
   * With any fates, a fill that is executed leaves every view unchanged if and only if the home zone did not answer
   * the GET with an error: an error's text is taken for the value and cached.
   */
  lemma FillKeepsViews(local: Store, lfates: seq<Fate>, home: Store, hfates: seq<Fate>, key: bytes)
    requires Honest(lfates)
    requires ReadThrough(local, lfates, home, hfates, key).fill.Some?
    ensures
      var after := Filled(local, ReadThrough(local, lfates, home, hfates, key));
      (forall x :: Through(after, home, x) == Through(local, home, x)) <==>
        (match FateAt(hfates, 0)
         case Refused(text) => text == View(home, key)
         case _ => !(key in home && home[key].Other?))
  {
    hide Atoi;
    var after := Filled(local, ReadThrough(local, lfates, home, hfates, key));
    assert FateAt(lfates, 0) == Served && View(local, key) == [];
    assert forall x :: x != key ==> View(after, x) == View(local, x);
    assert Through(after, home, key) == View(after, key);
  }

  lemma ErrorTextIsCached()
    ensures
      var key: bytes := [0x61, 0x3A, 0x6B];
      var read := ReadThrough(map[], [], map[key := Other], [], key);
      read.fill == Some(Set(key, WRONG_TYPE, None)) && Through(map[], map[key := Other], key) == []
  {
    var key: bytes := [0x61, 0x3A, 0x6B];
    Numbers.ParseFormat(-1);
    assert Atoi(Text(Answer(map[key := Other], Ttl(key)))) == -1;
  }

  /**
   * The reply a GET of a foreign key leaves in the request, for every fate of its two GETs: the local one unless it is
   * blank, then the home zone's, and the local one again when the home zone's command never went out.
   */
  lemma ReplyExactly(local: Store, lfates: seq<Fate>, home: Store, hfates: seq<Fate>, key: bytes)
    requires Honest(lfates)
    ensures
      var read := ReadThrough(local, lfates, home, hfates, key);
      var blank := key in local ==> local[key].Str? && local[key].value == [];
      var here := if key !in local then Bulk(None)
                  else if local[key].Str? then Bulk(Some(local[key].value)) else ErrorReply(WRONG_TYPE);
      var there := if key !in home then Bulk(None)
                   else if home[key].Str? then Bulk(Some(home[key].value)) else ErrorReply(WRONG_TYPE);
      && (read.asked <==> FateAt(lfates, 0).Served? && blank)
      && match FateAt(lfates, 0)
         case Lost(_) => read.resp == None
         case Refused(text) => read.resp == Some(ErrorReply(text))
         case Full => read.resp == None
         case NilConn => read.resp == None
         case Served =>
           if !blank then read.resp == Some(here)
           else
             match FateAt(hfates, 0)
             case Served => read.resp == Some(there)
             case Lost(_) => read.resp == None
             case Refused(text) => read.resp == Some(ErrorReply(text))
             case Full => read.resp == Some(here)
             case NilConn => read.resp == Some(here)
  {
    hide Atoi;
  }

  /**
   * The value that is written locally, for every fate: what the home zone answered, a refusal's text included, unless it
   * was blank or its TTL went without a reply. The expiry is the TTL's text, where that is a positive number.
   */
  lemma FillExactly(local: Store, lfates: seq<Fate>, home: Store, hfates: seq<Fate>, key: bytes)
    requires Honest(lfates) && Honest(hfates)
    ensures
      var read := ReadThrough(local, lfates, home, hfates, key);
      && (read.fill.Some? <==>
            && FateAt(lfates, 0).Served? && (key in local ==> local[key].Str? && local[key].value == [])
            && (FateAt(hfates, 0).Refused?
                || (FateAt(hfates, 0).Served? && key in home && (home[key].Other? || home[key].value != [])))
            && (FateAt(hfates, 1).Refused? || FateAt(hfates, 1).Served?))
      && (read.fill.Some? ==>
            && read.fill.value.Set? && read.fill.value.key == key
            && read.resp == Some(if FateAt(hfates, 0).Refused? then ErrorReply(read.fill.value.value)
                                 else if home[key].Other? then ErrorReply(read.fill.value.value)
                                 else Bulk(Some(read.fill.value.value)))
            && (FateAt(hfates, 1).Refused? ==>
                  var n := Atoi(FateAt(hfates, 1).text);
                  read.fill.value.expire == if n > 0 then Some(n) else None)
            && (FateAt(hfates, 1).Served? ==>
                  var ttl := if key in home && home[key].Str? then home[key].ttl else None;
                  (ttl.Some? ==> Numbers.IsInt64(ttl.value)) ==>
                    read.fill.value.expire == if ttl == Some(0) then None else ttl))
  {
    hide Atoi, Numbers.FormatInt;
    AtoiText(-1);
    AtoiText(-2);
    if key in home && home[key].Str? && home[key].ttl.Some? && Numbers.IsInt64(home[key].ttl.value) {
      AtoiText(home[key].ttl.value);
    }
  }

  /**
   * Exactly when a GET of a foreign key hangs: this zone has no connection, or the home zone has none after this zone
   * answered with nothing.
   */
  lemma HangsExactly(local: Store, lfates: seq<Fate>, home: Store, hfates: seq<Fate>, key: bytes)
    requires Honest(lfates)
    ensures ReadThrough(local, lfates, home, hfates, key).hangs <==>
      || FateAt(lfates, 0) == NilConn
      || (FateAt(hfates, 0) == NilConn && FateAt(lfates, 0).Served?
          && View(local, key) == [] && !(key in local && local[key].Other?))
  {
    hide Atoi;
  }

  // ---------------------------------------------------------------- the router

  class Router {
    const current: bytes
    const sep: bytes
    var zones: map<bytes, Zone>

    ghost predicate Valid()
      reads this, zones.Values
    {
      sep != [] && current in zones && Transaction.Distinct(zones)
    }

    constructor (current: bytes, sep: bytes, zones: map<bytes, Zone>)
      ensures this.current == current && this.sep == sep && this.zones == zones
    {
      this.current, this.sep, this.zones := current, sep, zones;
    }

    /** The configured zone of a key; whether it names one at all; whether that one is configured. */
    function GetZoneInfo(key: bytes): (r: (bytes, bool, bool))
      requires sep != []
      reads this
      ensures r.2 ==> r.1 && r.0 in zones && ZonePart(key, sep) == Some(r.0)
      ensures r.1 && !r.2 ==> ZonePart(key, sep).Some? && ZonePart(key, sep).value !in zones
      ensures !r.1 <==> ZonePart(key, sep).None?
    {
      match ZonePart(key, sep)
      case None => ([], false, false)
      case Some(p) => if p in zones then (p, true, true) else ([], true, false)
    }

    /** The key belongs to another zone that this router knows. */
    ghost predicate Foreign(key: bytes): (b: bool)
      requires sep != []
      reads this
      ensures b <==> ZonePart(key, sep).Some? && ZonePart(key, sep).value in zones && ZonePart(key, sep).value != current
    {
      var info := GetZoneInfo(key);
      info.2 && info.0 != current
    }

    ghost function Involved(key: bytes): set<Zone>
      requires sep != [] && current in zones
      reads this
    {
      {zones[current]} + if Foreign(key) then {zones[GetZoneInfo(key).0]} else {}
    }

    /** One Forward followed by Batch.Wait(), on a request whose Resp was previous. */
    method Call(z: Zone, cmd: Command, previous: Option<Reply>) returns (resp: Option<Reply>, panicked: bool)
      requires z.Valid()
      modifies z
      ensures z.Valid() && z.script == Later(old(z.script), 1)
      ensures z.Settled() == Executed(old(z.Settled()), cmd, FateAt(old(z.script), 0))
      ensures panicked == (FateAt(old(z.script), 0) == NilConn)
      ensures resp == Ask(previous, old(z.Settled()), cmd, FateAt(old(z.script), 0))
    {
      hide Zone.Valid, Settle, Pending, Later, Answer, Executed;
      var ticket, nil := z.Forward(cmd);
      if nil {
        return previous, true;
      }
      var outcome := z.Wait(ticket);
      return RespAfter(previous, outcome), false;
    }

    /** The GET branch after a local miss. */
    method FetchHome(z: Zone, home: Zone, key: bytes, local: Reply) returns (resp: Option<Reply>, hangs: bool)
      requires z != home && z.Valid() && home.Valid()
      modifies z, home
      ensures z.Valid() && home.Valid() && home.Settled() == old(home.Settled())
      ensures
        var read := ReadHome(local, old(home.Settled()), old(home.script), key);
        && resp == read.resp && hangs == read.hangs
        && z.Settled() == (if read.fill.None? then old(z.Settled())
                           else Executed(old(z.Settled()), read.fill.value, FateAt(old(z.script), 0)))
    {
      hide Zone.Valid, Zone.Settled, Settle, Pending, Later, Answer, Text, Atoi;
      var nil: bool;
      resp, nil := Call(home, Get(key), Some(local));
      hangs := nil;
      if nil || resp.None? || Text(resp.value) == [] {
        return;
      }
      var ttlr;
      ttlr, nil := Call(home, Ttl(key), None);
      if nil || ttlr.None? {
        return;
      }
      var ttl := Atoi(Text(ttlr.value));
      if ttl > 0 {
        var _, _ := Call(z, SetRequest(key, Text(resp.value), ttl), None);
      } else {
        var _, _ := Call(z, SetRequest(key, Text(resp.value), -1), None);
      }
    }

    /** When the client's request hangs, its reply is never sent: the session's writer waits for the batch. */
    method DispatchGet(key: bytes) returns (resp: Option<Reply>, err: Option<RouterError>, hangs: bool)
      requires Valid()
      modifies Involved(key)
      ensures forall k :: k in zones ==> zones[k].Valid()
      ensures Foreign(key) ==>
        var z, home := zones[current], zones[GetZoneInfo(key).0];
        var read := ReadThrough(old(z.Settled()), old(z.script), old(home.Settled()), old(home.script), key);
        && err.None? && resp == read.resp && hangs == read.hangs
        && home.Settled() == old(home.Settled())
        && z.Settled() == (if read.fill.None? then old(z.Settled())
                           else Executed(old(z.Settled()), read.fill.value, FateAt(old(z.script), 1)))
      ensures !Foreign(key) ==>
        var z := zones[current];
        && z.Settled() == old(z.Settled())
        && resp == Ask(None, old(z.Settled()), Get(key), FateAt(old(z.script), 0))
        && hangs == (FateAt(old(z.script), 0) == NilConn)
        && (err.Some? ==> err.value == ZoneIsNotConfig)
        && (err.Some? <==>
              resp.Some? && ZonePart(key, sep).Some? && ZonePart(key, sep).value !in zones && current != [])
    {
      hide Zone.Valid, Zone.Settled, Settle, Pending, ReadHome, Text, Later, Honest, Answer, ZonePart;
      var (zoneInfo, exist, ok) := GetZoneInfo(key);
      var z := zones[current];
      var nil: bool;
      err := None;
      resp, nil := Call(z, Get(key), None);
      hangs := nil;
      if nil || resp.None? {
        return;
      }
      if !exist || zoneInfo == current {
        return;
      }
      if Text(resp.value) == [] && ok {
        resp, hangs := FetchHome(z, zones[zoneInfo], key, resp.value);
      } else if !ok {
        err := Some(ZoneIsNotConfig);
      }
    }

    ghost function Stores(): (m: map<bytes, Store>)
      reads this, zones.Values
      ensures m.Keys == zones.Keys
    {
      map k | k in zones :: zones[k].Settled()
    }

    ghost function Scripts(): (m: map<bytes, seq<Fate>>)
      reads this, zones.Values
      ensures m.Keys == zones.Keys
    {
      map k | k in zones :: zones[k].script
    }

    /** ForwardAsync of a copy to every other zone; nothing is waited for. A nil connection panics and ends the loop. */
    method Replicate(cmd: Command, order: seq<bytes>) returns (panicked: bool, ghost sent: nat)
      requires Valid()
      requires forall i :: 0 <= i < |order| ==> order[i] in zones
      requires forall i, j :: 0 <= i < j < |order| ==> order[i] != order[j]
      modifies set k | k in zones && k != current :: zones[k]
      ensures Valid()
      ensures sent <= |order| && panicked == (sent < |order|)
      ensures sent < |order| ==> order[sent] != current && FateAt(old(zones[order[sent]].script), 0) == NilConn
      ensures forall i :: 0 <= i < sent && order[i] != current ==>
        && FateAt(old(zones[order[i]].script), 0) != NilConn
        && zones[order[i]].Settled() == Executed(old(zones[order[i]].Settled()), cmd, FateAt(old(zones[order[i]].script), 0))
      ensures forall i :: sent <= i < |order| ==> zones[order[i]].Settled() == old(zones[order[i]].Settled())
    {
      hide Zone.Valid, Zone.Settled, Honest, Effect, FateAt, Response, Later;
      sent := 0;
      var i := 0;
      while i < |order|
        invariant 0 <= i <= |order| && sent == i
        invariant forall k :: k in zones ==> zones[k].Valid() && Honest(zones[k].script)
        invariant forall j :: 0 <= j < i && order[j] != current ==>
          && FateAt(old(zones[order[j]].script), 0) != NilConn
          && zones[order[j]].Settled() == Executed(old(zones[order[j]].Settled()), cmd, FateAt(old(zones[order[j]].script), 0))
        invariant forall j :: i <= j < |order| ==> zones[order[j]].Settled() == old(zones[order[j]].Settled())
        invariant forall j :: i <= j < |order| ==> zones[order[j]].script == old(zones[order[j]].script)
      {
        if order[i] != current {
          var _, nil := zones[order[i]].Forward(cmd);
          if nil {
            return true, i;
          }
        }
        i := i + 1;
        sent := i;
      }
      panicked := false;
    }

    /** The home zone's Forward; the other zones are not concerned. */
    method SendHome(cmd: Command) returns (ticket: nat, panicked: bool)
      requires Valid()
      modifies zones[current]
      ensures Valid()
      ensures panicked == (FateAt(old(zones[current].script), 0) == NilConn)
      ensures zones[current].Settled() ==
        Executed(old(zones[current].Settled()), cmd, FateAt(old(zones[current].script), 0))
      ensures !panicked ==>
        var z := zones[current];
        z.Promised(ticket) == Some(Response(old(z.Settled()), cmd, FateAt(old(z.script), 0)))
    {
      hide Zone.Valid, Zone.Settled, Zone.Promised, Honest, Executed, FateAt, Response, Later;
      ticket, panicked := zones[current].Forward(cmd);
    }

    /** How many copies of a SET were sent, given the order of the loop: it stops at a nil connection, and only there. */
    ghost predicate IsCopying(order: seq<bytes>, sent: nat, scripts: map<bytes, seq<Fate>>) {
      && current in scripts && (forall k :: k in scripts <==> k in order)
      && (forall i, j :: 0 <= i < j < |order| ==> order[i] != order[j])
      && if FateAt(scripts[current], 0) == NilConn then sent == 0
         else
           && sent <= |order|
           && (forall i :: 0 <= i < sent && order[i] != current ==> FateAt(scripts[order[i]], 0) != NilConn)
           && (sent < |order| ==> order[sent] != current && FateAt(scripts[order[sent]], 0) == NilConn)
    }

    /** The home zone and the zones visited so far have been sent the command, the others not. */
    ghost predicate Copied(ends: map<bytes, Store>, order: seq<bytes>, sent: nat, cmd: Command,
                           stores: map<bytes, Store>, scripts: map<bytes, seq<Fate>>)
      requires ends.Keys == stores.Keys == scripts.Keys && IsCopying(order, sent, scripts)
    {
      forall i :: 0 <= i < |order| ==>
        var k := order[i];
        ends[k] == if k == current || i < sent then Executed(stores[k], cmd, FateAt(scripts[k], 0)) else stores[k]
    }

    /** Some zone has no connection for its next command. */
    predicate Unconnected(scripts: map<bytes, seq<Fate>>) {
      exists k :: k in scripts && FateAt(scripts[k], 0) == NilConn
    }

    /** Without a nil connection every zone is sent the SET. */
    lemma CopiedEverywhere(ends: map<bytes, Store>, order: seq<bytes>, sent: nat, cmd: Command,
                           stores: map<bytes, Store>, scripts: map<bytes, seq<Fate>>)
      requires ends.Keys == stores.Keys == scripts.Keys && IsCopying(order, sent, scripts)
      requires Copied(ends, order, sent, cmd, stores, scripts) && !Unconnected(scripts)
      ensures forall k :: k in scripts ==> ends[k] == Executed(stores[k], cmd, FateAt(scripts[k], 0))
    {
      hide Executed;
      forall k | k in scripts
        ensures ends[k] == Executed(stores[k], cmd, FateAt(scripts[k], 0))
      {
        assert k in order;
        var i :| 0 <= i < |order| && order[i] == k;
      }
    }

    /** The loop ends early exactly when some zone has no connection. */
    lemma StopsWhenUnconnected(order: seq<bytes>, sent: nat, scripts: map<bytes, seq<Fate>>)
      requires IsCopying(order, sent, scripts) && FateAt(scripts[current], 0) != NilConn
      ensures sent < |order| <==> Unconnected(scripts)
    {
      hide FateAt;
      if sent == |order| {
        forall k | k in scripts
          ensures FateAt(scripts[k], 0) != NilConn
        {
          var i :| 0 <= i < |order| && order[i] == k;
        }
      }
    }

    /** The home zone, then the others; stores and scripts are the zones as they were. */
    method SendAll(cmd: Command, order: seq<bytes>, ghost stores: map<bytes, Store>, ghost scripts: map<bytes, seq<Fate>>)
      returns (ticket: nat, panicked: bool, hangs: bool, ghost sent: nat)
      requires Valid() && (forall k :: k in zones <==> k in order) && stores.Keys == scripts.Keys == zones.Keys
      requires forall i, j :: 0 <= i < j < |order| ==> order[i] != order[j]
      requires forall k :: k in zones ==> stores[k] == zones[k].Settled() && scripts[k] == zones[k].script
      modifies zones.Values
      ensures Valid() && IsCopying(order, sent, scripts)
      ensures hangs == (FateAt(scripts[current], 0) == NilConn) && panicked == (hangs || sent < |order|)
      ensures forall i :: 0 <= i < |order| ==>
        var k := order[i];
        zones[k].Settled() == if k == current || i < sent then Executed(stores[k], cmd, FateAt(scripts[k], 0)) else stores[k]
      ensures FateAt(scripts[current], 0) != NilConn ==>
        zones[current].Promised(ticket) == Some(Response(stores[current], cmd, FateAt(scripts[current], 0)))
    {
      hide Zone.Valid, Zone.Settled, Zone.Promised, Honest, Executed, FateAt, Response, Later;
      sent := 0;
      ticket, hangs := SendHome(cmd);
      panicked := hangs;
      if !panicked {
        panicked, sent := Replicate(cmd, order);
      }
    }

    /**
     * The SET of a key of this router's own zone: the home zone first, then a copy to every other zone. It panics exactly
     * when some zone has no connection, and the client waits for ever exactly when that is the home zone.
     */
    method SetHome(cmd: Command, ghost stores: map<bytes, Store>, ghost scripts: map<bytes, seq<Fate>>)
      returns (ticket: nat, panicked: bool, hangs: bool, ghost order: seq<bytes>, ghost sent: nat)
      requires Valid() && stores == Stores() && scripts == Scripts()
      modifies zones.Values
      ensures Valid() && panicked == Unconnected(scripts) && hangs == (FateAt(scripts[current], 0) == NilConn)
      ensures IsCopying(order, sent, scripts) && Copied(Stores(), order, sent, cmd, stores, scripts)
      ensures FateAt(scripts[current], 0) != NilConn ==>
        zones[current].Promised(ticket) == Some(Response(stores[current], cmd, FateAt(scripts[current], 0)))
    {
      hide Zone.Valid, Zone.Settled, Zone.Promised, Honest, Executed, FateAt, Response, Later, Unconnected, IsCopying;
      var visited := Transaction.Range(zones);
      order := visited;
      ticket, panicked, hangs, sent := SendAll(cmd, visited, stores, scripts);
      if hangs {
        HomeUnconnected(scripts);
      } else {
        StopsWhenUnconnected(order, sent, scripts);
      }
    }

    lemma HomeUnconnected(scripts: map<bytes, seq<Fate>>)
      requires current in scripts && FateAt(scripts[current], 0) == NilConn
      ensures Unconnected(scripts)
    {
    }

    /**
     * The SET branch. A recovered panic reads as success: dispatch returns nil although some zone may not have been
     * sent the SET, or may keep one that was to be rolled back; the course says which. The client waits for ever, whatever
     * dispatch returned, when the nil connection was its own zone's for its own request.
     */
    method DispatchSet(cmd: Command)
      returns (err: Option<RouterError>, panicked: bool, hangs: bool, ticket: nat, ghost course: Transaction.Course,
               ghost stores: map<bytes, Store>, ghost scripts: map<bytes, seq<Fate>>)
      requires Valid() && cmd.Set?
      modifies zones.Values
      ensures stores == old(Stores()) && scripts == old(Scripts()) && stores.Keys == scripts.Keys == zones.Keys
      // another zone's key is refused, and no zone is sent anything; this zone's key is written here and sent to every other
      ensures ZonePart(cmd.key, sep).Some? ==>
        var p := ZonePart(cmd.key, sep).value;
        if p != current && (p in zones || current != [])
        then err == Some(ZoneIsNotMatch) && !panicked && !hangs && Stores() == stores && Scripts() == scripts
        else
          && err.None? && panicked == Unconnected(scripts) && hangs == (FateAt(scripts[current], 0) == NilConn)
          && IsCopying(course.order, course.begun, scripts)
          && Copied(Stores(), course.order, course.begun, cmd, stores, scripts)
          && (!hangs ==>
                zones[current].Promised(ticket) == Some(Response(stores[current], cmd, FateAt(scripts[current], 0))))
      // a key without a zone is written everywhere, or the course says what is left
      ensures ZonePart(cmd.key, sep).None? ==>
        && Transaction.IsCourse(course, scripts) && hangs == Transaction.Stuck(course, current, scripts)
        && (current in course.order[..course.begun] ==>
              zones[current].Promised(ticket) == Some(Response(stores[current], cmd, FateAt(scripts[current], 1))))
        && (match Transaction.Result(course, scripts)
            case (Some(e), p) => err == Some(Trx(e)) && panicked == p
            case (None, p) => err.None? && panicked == p)
        && if Transaction.AllCommit(scripts) then Transaction.AllWritten(zones, cmd, stores)
           else Transaction.AllFinal(zones, course, cmd, stores, scripts)
    {
      hide Zone.Valid, Zone.Settled, Honest, Effect, Executed, FateAt, Response, Later, Unconnected, IsCopying, Copied;
      hide Transaction.AllCommit, Transaction.AllWritten, Transaction.AllFinal, Transaction.IsCourse, Transaction.Result;
      hide Transaction.Stuck, Zone.Promised;
      ticket := 0;
      stores, scripts := Stores(), Scripts();
      course := Transaction.Course([], 0, 0);
      var (zoneInfo, exist, _) := GetZoneInfo(cmd.key);
      if !exist {
        var trx;
        ghost var s, f;
        trx, panicked, hangs, ticket, course, s, f := Transaction.SetEverywhere(zones, cmd, current);
        assert s == stores && f == scripts;
        err := if trx.Some? then Some(Trx(trx.value)) else None;
      } else if current != zoneInfo {
        err, panicked, hangs := Some(ZoneIsNotMatch), false, false;
      } else {
        ghost var order, sent;
        ticket, panicked, hangs, order, sent := SetHome(cmd, stores, scripts);
        course := Transaction.Course(order, sent, sent);
        err := None;
      }
    }
  }

  // ---------------------------------------------------------------- a SET that is reported as done and is not

  const KEY: bytes := [97, 58, 107]

  lemma KeyOfZoneA()
    ensures ZonePart(KEY, [58]) == Some([97])
  {
    assert KEY == [97] + [58] + [107];
    var p: bytes := [97] + [58];
    assert p[0..] == p && p[0] == 97;
    PrefixedKeyNamesItsZone([97], [58], [107]);
  }

  lemma KeyOfZoneB()
    ensures ZonePart([98, 58, 107], [58]) == Some([98])
  {
    assert [98, 58, 107] == [98] + [58] + [107];
    var p: bytes := [98] + [58];
    assert p[0..] == p && p[0] == 98;
    PrefixedKeyNamesItsZone([98], [58], [107]);
  }

  /** Zone b has no connection. */
  function Scripts(): map<bytes, seq<Fate>> {
    map[[97] := [], [98] := [NilConn]]
  }

  method TwoZones() returns (r: Router, a: Zone, b: Zone)
    ensures fresh(r) && fresh(a) && fresh(b) && a != b && r.zones == map[[97] := a, [98] := b]
    ensures r.current == [97] && r.sep == [58]
    ensures a.Valid() && b.Valid() && a.Settled() == map[] == b.Settled()
    ensures a.script == Scripts()[[97]] && b.script == Scripts()[[98]]
  {
    hide Zone.Valid, Zone.Settled;
    a := new Zone([97], map[], []);
    b := new Zone([98], map[], [NilConn]);
    r := new Router([97], [58], map[[97] := a, [98] := b]);
  }

  lemma TwoZonesBefore(r: Router, a: Zone, b: Zone)
    requires a != b && r.zones == map[[97] := a, [98] := b] && r.current == [97] && r.sep == [58]
    requires a.Valid() && b.Valid() && a.Settled() == map[] == b.Settled()
    requires a.script == Scripts()[[97]] && b.script == Scripts()[[98]]
    ensures r.Valid() && r.Stores() == map[[97] := map[], [98] := map[]] && r.Scripts() == Scripts()
  {
    hide Zone.Valid, Zone.Settled;
  }

  lemma HalfCopied(r: Router, ends: map<bytes, Store>, order: seq<bytes>, sent: nat, stores: map<bytes, Store>)
    requires r.current == [97] && ends.Keys == stores.Keys == {[97], [98]} && r.IsCopying(order, sent, Scripts())
    requires stores == map[[97] := map[], [98] := map[]]
    requires r.Copied(ends, order, sent, Set(KEY, [1], None), stores, Scripts())
    ensures View(ends[[97]], KEY) == [1] && View(ends[[98]], KEY) == []
  {
    assert [97] in order && [98] in order;
    var i :| 0 <= i < |order| && order[i] == [97];
    var j :| 0 <= j < |order| && order[j] == [98];
    assert FateAt([NilConn], 0) == NilConn && FateAt([], 0) == Served;
  }

  /**
   * A nil connection to one zone: dispatch returns nil and the client gets its own zone's reply; that zone holds the
   * value, and the other never will.
   */
  method HalfAReplication() returns (err: Option<RouterError>, hangs: bool, a: Zone, b: Zone)
    ensures err.None? && !hangs && View(a.Settled(), KEY) == [1] && View(b.Settled(), KEY) == []
  {
    hide Zone.Valid, Zone.Settled, ZonePart, View, Router.IsCopying, Router.Copied, Router.Unconnected, Router.Valid;
    hide Transaction.IsCourse, Transaction.AllCommit, Transaction.AllWritten, Transaction.AllFinal, Transaction.Result;
    var r;
    r, a, b := TwoZones();
    TwoZonesBefore(r, a, b);
    KeyOfZoneA();
    var panicked;
    ghost var course, stores, scripts;
    var ticket;
    err, panicked, hangs, ticket, course, stores, scripts := r.DispatchSet(Set(KEY, [1], None));
    HalfCopied(r, r.Stores(), course.order, course.begun, stores);
    assert r.Stores()[[97]] == a.Settled() && r.Stores()[[98]] == b.Settled();
    assert FateAt(Scripts()[[97]], 0) == Served;
  }

  /** A SET of a key of the other zone is refused, and neither zone is written. */
  method RefusedSet() returns (err: Option<RouterError>, a: Zone, b: Zone)
    ensures err == Some(ZoneIsNotMatch) && View(a.Settled(), [98, 58, 107]) == [] == View(b.Settled(), [98, 58, 107])
  {
    hide Zone.Valid, Zone.Settled, ZonePart, Router.IsCopying, Router.Copied, Router.Unconnected, Router.Valid;
    hide Transaction.IsCourse, Transaction.AllCommit, Transaction.AllWritten, Transaction.AllFinal, Transaction.Result;
    var r;
    r, a, b := TwoZones();
    TwoZonesBefore(r, a, b);
    KeyOfZoneB();
    var panicked, hangs, ticket;
    ghost var course, stores, scripts;
    err, panicked, hangs, ticket, course, stores, scripts := r.DispatchSet(Set([98, 58, 107], [1], None));
    assert r.Stores()[[97]] == a.Settled() && r.Stores()[[98]] == b.Settled();
  }

  // ---------------------------------------------------------------- requests that hang

  /** A GET hangs when the home zone has no connection, although this zone has answered. */
  method HangingGet() returns (resp: Option<Reply>, err: Option<RouterError>, hangs: bool)
    ensures hangs && err.None?
  {
    hide Zone.Valid, Zone.Settled, ZonePart, Router.Valid, ReadThrough, Honest;
    var r, a, b := TwoZones();
    TwoZonesBefore(r, a, b);
    KeyOfZoneB();
    HomeUnanswered();
    assert r.Valid() && r.zones[[98]] == b && r.Foreign([98, 58, 107]);
    resp, err, hangs := r.DispatchGet([98, 58, 107]);
  }

  lemma HomeUnanswered()
    ensures ReadThrough(map[], Scripts()[[97]], map[], Scripts()[[98]], [98, 58, 107]).hangs
  {
    HangsExactly(map[], Scripts()[[97]], map[], Scripts()[[98]], [98, 58, 107]);
  }

  /** A router with a single zone, which has no connection for its first command, or for its second. */
  function Unanswering(first: bool): map<bytes, seq<Fate>> {
    map[[97] := if first then [NilConn] else [Served, NilConn]]
  }

  method OneZone(first: bool) returns (r: Router, a: Zone)
    ensures fresh(r) && fresh(a) && r.zones == map[[97] := a] && r.current == [97] && r.sep == [58]
    ensures r.Valid() && r.Scripts() == Unanswering(first)
  {
    hide Zone.Valid, Zone.Settled;
    a := new Zone([97], map[], Unanswering(first)[[97]]);
    r := new Router([97], [58], map[[97] := a]);
  }

  lemma OnlyStart(c: Transaction.Course)
    requires Transaction.IsCourse(c, Unanswering(false))
    ensures Transaction.Stuck(c, [97], Unanswering(false)) && !Transaction.AllCommit(Unanswering(false))
    ensures Transaction.Result(c, Unanswering(false)) == (Some(Transaction.CmptExec), false)
  {
    var fs := Unanswering(false);
    assert [97] in fs && fs[[97]] == [Served, NilConn];
    assert [97] in c.order && c.order[0] in fs;
    assert forall i :: 0 <= i < |c.order| ==> c.order[i] in fs;
  }

  /**
   * A SET of this zone's key hangs when this zone has no connection for it, and dispatch returns nil; a SET of a key
   * without a zone hangs when this zone has none after its GET, and dispatch returns an error the client never sees.
   */
  method HangingSet(prefixed: bool) returns (err: Option<RouterError>, hangs: bool)
    ensures hangs && err == if prefixed then None else Some(Trx(Transaction.CmptExec))
  {
    hide Zone.Valid, Zone.Settled, ZonePart, Router.IsCopying, Router.Copied, Router.Unconnected, Router.Valid;
    hide Transaction.IsCourse, Transaction.AllCommit, Transaction.AllWritten, Transaction.AllFinal, Transaction.Result;
    hide Transaction.Stuck;
    var r, a := OneZone(prefixed);
    KeyOfZoneA();
    KeyWithoutZone();
    var panicked;
    ghost var course, stores, scripts;
    var ticket;
    err, panicked, hangs, ticket, course, stores, scripts := r.DispatchSet(Set(if prefixed then KEY else [107], [1], None));
    if prefixed {
      assert FateAt(scripts[[97]], 0) == NilConn;
    } else {
      OnlyStart(course);
    }
  }

  lemma KeyWithoutZone()
    ensures ZonePart([107], [58]) == None
  {
    var key: bytes := [107];
    assert key[0..] == key && key[1..] == [];
    var sep: bytes := [58];
    assert key[0] != sep[0];
    assert Find(key, sep, 1).None?;
  }
}
