/** Go slices over shared byte arrays, and the arena they are carved from (slice.go). */
module Slices {
  import opened Bytes

  /** A window on an array; several slices may share one array. */
  datatype Slice = Slice(a: array<byte>, off: nat, len: nat) {
    ghost predicate Ok() {
      off + len <= a.Length
    }

    /** The first `n` bytes of the window. */
    function Take(n: nat): (v: bytes)
      requires Ok() && n <= len
      reads a
      ensures |v| == n
    {
      a[off..off + n]
    }

    function View(): (v: bytes)
      requires Ok()
      reads a
      ensures |v| == len
    {
      Take(len)
    }

    /** The Go expression s[i:j]. */
    function Sub(i: nat, j: nat): (s: Slice)
      requires Ok() && i <= j <= len
      ensures s.Ok()
    {
      Slice(a, off + i, j - i)
    }
  }

  ghost predicate Disjoint(s: Slice, t: Slice) {
    s.a != t.a || s.off + s.len <= t.off || t.off + t.len <= s.off
  }

  /** Nothing of `a` changed except, possibly, the first `n` bytes of `s`. */
  twostate predicate OnlyWrote(s: Slice, n: nat)
    requires s.Ok()
    reads s.a
  {
    forall i :: 0 <= i < s.a.Length && !(s.off <= i < s.off + n) ==> s.a[i] == old(s.a[i])
  }

  /** Go's copy: the overlap of source and destination is allowed. */
  method Copy(dst: Slice, src: Slice) returns (n: nat)
    requires dst.Ok() && src.Ok()
    modifies dst.a
    ensures n == if dst.len < src.len then dst.len else src.len
    ensures dst.Take(n) == old(src.Take(n))
    ensures OnlyWrote(dst, n)
  {
    n := if dst.len < src.len then dst.len else src.len;
    forall i | 0 <= i < n {
      dst.a[dst.off + i] := src.a[src.off + i];
    }
    assert forall i :: 0 <= i < n ==> dst.Take(n)[i] == old(src.Take(n))[i];
  }

  /** Go's copy from a string. */
  method CopyIn(dst: Slice, src: bytes) returns (n: nat)
    requires dst.Ok()
    modifies dst.a
    ensures n == if dst.len < |src| then dst.len else |src|
    ensures dst.Take(n) == src[..n]
    ensures OnlyWrote(dst, n)
  {
    n := if dst.len < |src| then dst.len else |src|;
    forall i | 0 <= i < n {
      dst.a[dst.off + i] := src[i];
    }
  }

  /** The bump allocator behind every value the reader returns. */
  class SliceAlloc {
    var buf: Slice
    ghost var given: set<Slice>

    ghost predicate Valid()
      reads this
    {
      && buf.Ok()
      && (forall s :: s in given ==> s.Ok() && Disjoint(s, buf))
      && (forall s, t :: s in given && t in given && s != t ==> Disjoint(s, t))
    }

    /** Every region handed out so far still holds the same bytes. */
    twostate predicate Keeps()
      reads this, set s | s in given :: s.a
    {
      && old(given) <= given
      && forall s :: s in old(given) && s.Ok() ==> s.View() == old(s.View())
    }

    constructor ()
      ensures Valid() && given == {} && fresh(buf.a)
    {
      var none := new byte[0];
      buf := Slice(none, 0, 0);
      given := {};
    }

    /** A region of `n` bytes that overlaps nothing handed out before or after. */
    method Make(n: nat) returns (ss: Slice)
      requires Valid()
      modifies this
      ensures Valid() && Keeps()
      ensures ss.Ok() && ss.len == n && given == old(given) + {ss}
      ensures ss !in old(given)
      ensures forall s :: s in old(given) ==> Disjoint(s, ss)
      ensures buf.a == old(buf.a) || fresh(buf.a)
      ensures ss.a == buf.a || fresh(ss.a)
    {
      if n == 0 {
        var none := new byte[0];
        ss := Slice(none, 0, 0);
      } else if n >= 512 {
        var a := new byte[n];
        ss := Slice(a, 0, n);
      } else {
        if buf.len < n {
          var arena := new byte[8192];
          buf := Slice(arena, 0, 8192);
        }
        ss := buf.Sub(0, n);
        buf := buf.Sub(n, buf.len);
      }
      given := given + {ss};
    }

    /** The Go statement copy(dst[n:], src) on a region handed out before: every other region is left alone. */
    method Put(dst: Slice, n: nat, src: Slice) returns (m: nat)
      requires Valid() && dst in given && n <= dst.len && src.Ok()
      modifies dst.a
      ensures m == if dst.len - n < src.len then dst.len - n else src.len
      ensures dst.Take(n + m) == old(dst.Take(n)) + old(src.Take(m))
      ensures forall s :: s in given && s != dst ==> s.View() == old(s.View())
    {
      m := Copy(dst.Sub(n, dst.len), src);
      assert dst.Take(n) == old(dst.Take(n));
      TakeMore(dst, n, m);
      forall s | s in given && s != dst && s.a == dst.a
        ensures s.View() == old(s.View())
      {
        assert Disjoint(s, dst);
      }
    }
  }

  lemma TakeMore(s: Slice, n: nat, m: nat)
    requires s.Ok() && n + m <= s.len
    ensures s.Take(n + m) == s.Take(n) + s.Sub(n, s.len).Take(m)
  {
  }
}
