/** The unbounded request queue of request.go: a slice that shares its first array, guarded by a condition variable. */
module RequestChan {
  import opened Wrappers

  // ---------------------------------------------------------------- the queue and its consumers, as a value

  /** `asleep` consumers sit in cond.Wait; `signalled` ones were woken but do not hold the lock yet. */
  datatype Chan<T> = Chan(items: seq<T>, asleep: set<nat>, signalled: set<nat>, closed: bool)

  datatype Popped<T> = Got(r: T) | Closed | Wait

  function Min(a: nat, b: nat): nat {
    if a < b then a else b
  }

  /** No lost wakeup: enough consumers are on their way for the items there are. */
  predicate Inv<T>(c: Chan<T>) {
    && c.asleep !! c.signalled
    && (c.closed ==> c.asleep == {})
    && |c.signalled| >= Min(|c.items|, |c.asleep| + |c.signalled|)
  }

  /** cond.Signal wakes one sleeper, any of them, if there is one. */
  predicate MayWake<T>(c: Chan<T>, woken: Option<nat>) {
    if woken.Some? then woken.value in c.asleep else c.asleep == {}
  }

  function DoPush<T>(c: Chan<T>, r: T, woken: Option<nat>): (c': Chan<T>)
    requires MayWake(c, woken)
    ensures Inv(c) && !c.closed ==> Inv(c')
  {
    var w := if woken.Some? then {woken.value} else {};
    assert |c.asleep - w| + |w| == |c.asleep|;
    assert Inv(c) ==> |c.signalled + w| == |c.signalled| + |w|;
    c.(items := c.items + [r], asleep := c.asleep - w, signalled := c.signalled + w)
  }

  /** A consumer that holds the lock: it takes an item, learns that the queue is closed, or falls asleep. */
  function DoPop<T>(c: Chan<T>, me: nat): (c': Chan<T>)
    requires me !in c.asleep && me !in c.signalled
    ensures Inv(c) ==> Inv(c')
  {
    if c.items != [] then c.(items := c.items[1..])
    else if c.closed then c
    else c.(asleep := c.asleep + {me})
  }

  function Result<T>(c: Chan<T>): Popped<T> {
    if c.items != [] then Got(c.items[0]) else if c.closed then Closed else Wait
  }

  /** A woken consumer gets the lock back and looks again. */
  function DoResume<T>(c: Chan<T>, me: nat): (c': Chan<T>)
    requires me in c.signalled && me !in c.asleep
    ensures Inv(c) ==> Inv(c')
  {
    var c1 := c.(signalled := c.signalled - {me});
    assert |c1.signalled| == |c.signalled| - 1;
    if c.items != [] then c1.(items := c.items[1..])
    else if c.closed then c1
    else
      assert |c1.asleep + {me}| == |c1.asleep| + 1;
      c1.(asleep := c1.asleep + {me})
  }

  function DoClose<T>(c: Chan<T>): (c': Chan<T>)
    ensures Inv(c) ==> Inv(c')
  {
    assert Inv(c) ==> |c.signalled + c.asleep| == |c.signalled| + |c.asleep|;
    c.(closed := true, asleep := {}, signalled := c.signalled + c.asleep)
  }

  // ---------------------------------------------------------------- runs with any number of consumers

  datatype Step<T> =
    | Push(r: T, woken: Option<nat>)
    | Pop(me: nat)
    | Resume(me: nat)
    | Close

  /** The queue with the log of what went in and what came out. */
  datatype Run<T> = Run(chan: Chan<T>, pushed: seq<T>, popped: seq<T>)

  function Init<T>(): Run<T> {
    Run(Chan([], {}, {}, false), [], [])
  }

  predicate Enabled<T>(s: Run<T>, step: Step<T>) {
    match step
    case Push(_, woken) => !s.chan.closed && MayWake(s.chan, woken)
    case Pop(me) => me !in s.chan.asleep && me !in s.chan.signalled
    case Resume(me) => me in s.chan.signalled && me !in s.chan.asleep
    case Close => true
  }

  function Apply<T>(s: Run<T>, step: Step<T>): Run<T>
    requires Enabled(s, step)
  {
    match step
    case Push(r, woken) => s.(chan := DoPush(s.chan, r, woken), pushed := s.pushed + [r])
    case Pop(me) => Log(s, s.chan).(chan := DoPop(s.chan, me))
    case Resume(me) => Log(s, s.chan).(chan := DoResume(s.chan, me))
    case Close => s.(chan := DoClose(s.chan))
  }

  function Log<T>(s: Run<T>, c: Chan<T>): Run<T> {
    if c.items != [] then s.(popped := s.popped + [c.items[0]]) else s
  }

  predicate IsRun<T>(s: Run<T>, steps: seq<Step<T>>)
    decreases |steps|
  {
    steps == [] || (Enabled(s, steps[0]) && IsRun(Apply(s, steps[0]), steps[1..]))
  }

  function After<T>(s: Run<T>, steps: seq<Step<T>>): Run<T>
    requires IsRun(s, steps)
    decreases |steps|
  {
    if steps == [] then s else After(Apply(s, steps[0]), steps[1..])
  }

  lemma {:induction false} RunKeeps<T>(s: Run<T>, steps: seq<Step<T>>)
    requires IsRun(s, steps) && Inv(s.chan) && s.pushed == s.popped + s.chan.items
    ensures var s' := After(s, steps); Inv(s'.chan) && s'.pushed == s'.popped + s'.chan.items
    decreases |steps|
  {
    if steps != [] {
      var s' := Apply(s, steps[0]);
      if (steps[0].Pop? || steps[0].Resume?) && s.chan.items != [] {
        assert s.chan.items == [s.chan.items[0]] + s.chan.items[1..];
      }
      RunKeeps(s', steps[1..]);
    }
  }

  /** The queue is closed once somebody has closed it, and not before. */
  lemma {:induction false} ClosedExactly<T>(s: Run<T>, steps: seq<Step<T>>)
    requires IsRun(s, steps)
    ensures After(s, steps).chan.closed <==> s.chan.closed || exists i :: 0 <= i < |steps| && steps[i].Close?
    decreases |steps|
  {
    if steps != [] {
      ClosedExactly(Apply(s, steps[0]), steps[1..]);
      if j :| 0 <= j < |steps[1..]| && steps[1..][j].Close? {
        assert steps[j + 1].Close?;
      }
      if i :| 0 <= i < |steps| && steps[i].Close? {
        assert i == 0 || steps[1..][i - 1].Close?;
      }
    }
  }

  /** In every interleaving the items come out in the order they went in, none lost and none twice. */
  lemma FirstInFirstOut<T>(steps: seq<Step<T>>)
    requires IsRun(Init(), steps)
    ensures var s := After(Init(), steps); s.pushed == s.popped + s.chan.items
  {
    RunKeeps(Init<T>(), steps);
  }

  /**
   * In every interleaving the woken consumers are at least as many as the items or, if there are fewer, as all the
   * waiting consumers; so items never lie there while everyone who waits is asleep. After Close no one is asleep.
   */
  lemma NoLostWakeup<T>(steps: seq<Step<T>>)
    requires IsRun(Init(), steps)
    ensures var c := After(Init(), steps).chan;
            && |c.signalled| >= Min(|c.items|, |c.asleep| + |c.signalled|)
            && (c.items != [] && c.asleep != {} ==> c.signalled != {})
            && (c.closed ==> c.asleep == {})
  {
    RunKeeps(Init<T>(), steps);
  }

  lemma TakeFirst<T>(delivered: seq<T>, items: seq<T>)
    requires items != []
    ensures delivered + items == (delivered + [items[0]]) + items[1..]
  {
  }

  // ---------------------------------------------------------------- the class

  class RequestChan<T> {
    var data: array<Option<T>>  // c.data is data[off : off+len], with capacity up to the end of the array
    var off: nat
    var len: nat
    const buff: array<Option<T>>
    var waits: nat
    var closed: bool
    ghost var asleep: set<nat>
    ghost var signalled: set<nat>

    /** The window lies inside its array and holds no cleared slot. */
    ghost predicate Shape()
      reads this, data
    {
      && off + len <= data.Length
      && (forall i :: off <= i < off + len ==> data[i].Some?)
      && waits == |asleep| + |signalled|
    }

    ghost predicate Valid()
      reads this, data
    {
      Shape() && Inv(Abs())
    }

    ghost function Contents(): seq<T>
      requires Shape()
      reads this, data
    {
      seq(len, i requires 0 <= i < len && Shape() reads this, data => data[off + i].value)
    }

    ghost function Abs(): Chan<T>
      requires Shape()
      reads this, data
    {
      Chan(Contents(), asleep, signalled, closed)
    }

    constructor (n: int)
      ensures Valid() && Abs() == Chan([], {}, {}, false)
      ensures buff.Length == if n <= 0 then 128 else n
      ensures fresh(data) && fresh(buff)
    {
      var b := new Option<T>[if n <= 0 then 128 else n](_ => None);
      buff := b;
      data, off, len := b, 0, 0;
      waits, closed := 0, false;
      asleep, signalled := {}, {};
    }

    method Close()
      requires Valid()
      modifies this
      ensures Valid() && data == old(data) && Abs() == if old(closed) then old(Abs()) else DoClose(old(Abs()))
      ensures closed && Contents() == old(Contents())
      ensures asleep == {} && signalled == old(signalled) + old(asleep)
    {
      if !closed {
        closed := true;
        // cond.Broadcast
        signalled, asleep := signalled + asleep, {};
      }
    }

    method Buffered() returns (n: nat)
      requires Valid()
      ensures n == |Contents()|
    {
      n := len;
    }

    /** Sending on a closed queue panics; otherwise one sleeper is woken and the item appended, in place if there is room. */
    method PushBack(r: T) returns (n: nat, panicked: bool, ghost woken: Option<nat>)
      requires Valid()
      modifies this, data
      ensures Valid() && (data == old(data) || fresh(data))
      ensures panicked == old(closed)
      ensures panicked ==> Abs() == old(Abs())
      ensures !panicked ==>
        && MayWake(old(Abs()), woken) && Abs() == DoPush(old(Abs()), r, woken) && n == |Contents()|
        && Contents() == old(Contents()) + [r] && !closed
        && if old(asleep) == {} then asleep == {} && signalled == old(signalled)
           else
             && woken.Some? && woken.value in old(asleep)
             && asleep == old(asleep) - {woken.value} && signalled == old(signalled) + {woken.value}
    {
      woken := None;
      if closed {
        return 0, true, None;
      }
      hide Contents, Inv;
      Sleepers();
      if waits != 0 {
        woken := Signal();
      }
      Append(r);
      n, panicked := len, false;
    }

    lemma Sleepers()
      requires Valid()
      ensures asleep !! signalled && (waits == 0 ==> asleep == {})
    {
    }

    /** cond.Signal */
    ghost method Signal() returns (woken: Option<nat>)
      requires Shape() && asleep !! signalled
      modifies this`asleep, this`signalled
      ensures Shape() && Contents() == old(Contents())
      ensures MayWake(old(Abs()), woken)
      ensures var w := if woken.Some? then {woken.value} else {};
              asleep == old(asleep) - w && signalled == old(signalled) + w
    {
      woken := None;
      if asleep != {} {
        var sleeper :| sleeper in asleep;
        woken := Some(sleeper);
        signalled, asleep := signalled + {sleeper}, asleep - {sleeper};
      }
    }

    /** The Go expression append(c.data, r): beyond the capacity the slice moves to a larger array. */
    method Append(r: T)
      requires Shape()
      modifies this`data, this`off, this`len, data
      ensures Shape() && Contents() == old(Contents()) + [r]
      ensures data == old(data) || fresh(data)
    {
      if off + len == data.Length {
        var capacity: int :| capacity > len;
        var a := new Option<T>[capacity](_ => None);
        forall i | 0 <= i < len {
          a[i] := data[off + i];
        }
        data, off := a, 0;
      }
      data[off + len] := Some(r);
      len := len + 1;
    }

    /** What a consumer does each time it holds the lock: take the first item and clear its slot, give up, or wait. */
    method PopOrWait(ghost me: nat) returns (res: Popped<T>)
      requires Shape() && me !in asleep && me !in signalled
      modifies this, data
      ensures Shape() && (data == old(data) || data == buff)
      ensures res == Result(old(Abs())) && Abs() == DoPop(old(Abs()), me)
    {
      ghost var items := Contents();
      if len == 0 {
        if closed {
          return Closed;
        }
        data, off := buff, 0;
        waits := waits + 1;
        asleep := asleep + {me};
        assert Contents() == items;
        return Wait;
      }
      var r := data[off];
      data[off] := None;
      off, len := off + 1, len - 1;
      assert Contents() == items[1..];
      return Got(r.value);
    }

    /** PopFront up to its first wait. */
    method PopFront(ghost me: nat) returns (res: Popped<T>)
      requires Valid() && me !in asleep && me !in signalled
      modifies this, data
      ensures Valid() && (data == old(data) || data == buff)
      ensures res == Result(old(Abs())) && Abs() == DoPop(old(Abs()), me)
      ensures closed == old(closed) && signalled == old(signalled)
      ensures if old(Contents()) != [] then
                res == Got(old(Contents())[0]) && Contents() == old(Contents())[1..] && asleep == old(asleep)
              else if closed then res == Closed && Contents() == [] && asleep == old(asleep)
              else res == Wait && Contents() == [] && asleep == old(asleep) + {me}
    {
      res := PopOrWait(me);
    }

    /** PopFront from the moment its cond.Wait returns. */
    method Resume(ghost me: nat) returns (res: Popped<T>)
      requires Valid() && me in signalled
      modifies this, data
      ensures Valid() && (data == old(data) || data == buff)
      ensures res == Result(old(Abs())) && Abs() == DoResume(old(Abs()), me)
      ensures closed == old(closed) && signalled == old(signalled) - {me}
      ensures if old(Contents()) != [] then
                res == Got(old(Contents())[0]) && Contents() == old(Contents())[1..] && asleep == old(asleep)
              else if closed then res == Closed && Contents() == [] && asleep == old(asleep)
              else res == Wait && Contents() == [] && asleep == old(asleep) + {me}
    {
      waits := waits - 1;
      signalled := signalled - {me};
      res := PopOrWait(me);
    }

    /**
     * PopFrontAll, up to the moment it would have to wait. The callback fails on the items in `fails`. Items are
     * delivered in order until the callback fails; on a closed queue whose callback never fails all are delivered.
     */
    method PopFrontAll(ghost me: nat, fails: T -> bool) returns (delivered: seq<T>, failed: bool, blocked: bool)
      requires Valid() && me !in asleep && me !in signalled
      modifies this, data, buff
      ensures Valid() && closed == old(closed)
      ensures delivered + Contents() == old(Contents())
      ensures forall i :: 0 <= i < |delivered| - 1 ==> !fails(delivered[i])
      ensures failed <==> delivered != [] && fails(delivered[|delivered| - 1])
      ensures !failed ==> Contents() == []
      ensures blocked <==> !failed && !closed
    {
      hide Inv, Contents, Abs, Result, DoPop, Shape;
      delivered := [];
      while true
        invariant Valid() && closed == old(closed)
        invariant data == old(data) || data == buff
        invariant me !in asleep && me !in signalled
        invariant delivered + Contents() == old(Contents())
        invariant forall i :: 0 <= i < |delivered| ==> !fails(delivered[i])
        decreases |Contents()|
      {
        ghost var items := Contents();
        var res := PopFront(me);
        match res {
          case Got(r) =>
            TakeFirst(delivered, items);
            delivered := delivered + [r];
            if fails(r) {
              return delivered, true, false;
            }
          case Closed =>
            return delivered, false, false;
          case Wait =>
            return delivered, false, true;
        }
      }
    }
  }
}
