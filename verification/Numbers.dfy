/** Decimal integers on the wire: Btoi64 (decoder.go) and the itoa table (encoder.go). */
module Numbers {
  import opened Wrappers
  import opened Bytes

  const MINUS: byte := 45
  const PLUS: byte := 43
  const ZERO: byte := 48

  const INT64_LIMIT: int := 0x8000_0000_0000_0000

  newtype uint32 = x: int | 0 <= x < 0x1_0000_0000

  predicate IsInt64(v: int) {
    -INT64_LIMIT <= v < INT64_LIMIT
  }

  predicate IsDigit(b: byte) {
    ZERO <= b <= ZERO + 9
  }

  predicate AllDigits(s: bytes) {
    forall i :: 0 <= i < |s| ==> IsDigit(s[i])
  }

  function Pow10(k: nat): (p: nat)
    ensures p > 0
  {
    if k == 0 then 1 else 10 * Pow10(k - 1)
  }

  /** Decimal digits, most significant first, without leading zeros. */
  function Digits(n: nat): (s: bytes)
    ensures |s| > 0 && AllDigits(s)
  {
    if n < 10 then [ZERO + n as byte] else Digits(n / 10) + [ZERO + (n % 10) as byte]
  }

  /** What strconv.FormatInt(i, 10) and strconv.Itoa(i) return. */
  function FormatInt(i: int): (s: bytes)
    ensures |s| > 0
  {
    if i < 0 then [MINUS] + Digits(-i) else Digits(i)
  }

  /** The number a string of digits denotes. */
  function Value(s: bytes): nat
    requires AllDigits(s)
  {
    if s == [] then 0 else Value(s[..|s| - 1]) * 10 + (s[|s| - 1] - ZERO) as int
  }

  function Unsigned(s: bytes): bytes {
    if |s| > 0 && (s[0] == MINUS || s[0] == PLUS) then s[1..] else s
  }

  /** strconv.ParseInt(s, 10, 64): an optional sign, at least one digit, and a value that fits in 64 bits. */
  function ParseInt(s: bytes): (r: Option<int>)
    ensures r.Some? ==> IsInt64(r.value)
  {
    var body := Unsigned(s);
    if body == [] || !AllDigits(body) then None
    else
      var magnitude: int := Value(body);
      var v := if s[0] == MINUS then -magnitude else magnitude;
      if IsInt64(v) then Some(v) else None
  }

  lemma {:induction false} ValueOfDigits(n: nat)
    ensures Value(Digits(n)) == n
  {
    if n >= 10 {
      ValueOfDigits(n / 10);
      assert Digits(n)[..|Digits(n)| - 1] == Digits(n / 10);
    }
  }

  lemma {:induction false} ValueBelowPow10(s: bytes)
    requires AllDigits(s)
    ensures Value(s) < Pow10(|s|)
  {
    if s != [] {
      ValueBelowPow10(s[..|s| - 1]);
    }
  }

  lemma {:induction false} DigitsLength(n: nat, k: nat)
    requires k > 0 && n < Pow10(k)
    ensures |Digits(n)| <= k
  {
    if n >= 10 {
      assert Pow10(1) == 10;
      assert Pow10(k) == 10 * Pow10(k - 1);
      DigitsLength(n / 10, k - 1);
    }
  }

  lemma {:induction false} ValueAppend(s: bytes, d: byte)
    requires AllDigits(s) && IsDigit(d)
    ensures AllDigits(s + [d]) && Value(s + [d]) == Value(s) * 10 + (d - ZERO) as int
  {
    assert (s + [d])[..|s|] == s;
  }

  /** Formatting then parsing is the identity on every 64-bit integer. */
  lemma ParseFormat(v: int)
    requires IsInt64(v)
    ensures ParseInt(FormatInt(v)) == Some(v)
  {
    var s := FormatInt(v);
    if v < 0 {
      ValueOfDigits(-v);
      assert s[1..] == Digits(-v);
    } else {
      ValueOfDigits(v);
      assert IsDigit(s[0]);
    }
  }

  /** No accepted spelling of a number ("+3", "007", "-0") is shorter than the one FormatInt prints. */
  lemma FormatIsShortest(s: bytes)
    requires ParseInt(s).Some?
    ensures |FormatInt(ParseInt(s).value)| <= |s|
  {
    var body := Unsigned(s);
    ValueBelowPow10(body);
    DigitsLength(Value(body), |body|);
  }

  lemma FormatLength(v: int, k: nat)
    requires k > 0 && v < Pow10(k) && -v < Pow10(k)
    ensures |FormatInt(v)| <= if v < 0 then k + 1 else k
  {
    DigitsLength(if v < 0 then -v else v, k);
  }

  /** Btoi64 scans short inputs itself and leaves the rest to strconv; both ways it is the full parse. */
  method Btoi64(b: bytes) returns (r: Option<int>)
    ensures r == ParseInt(b)
  {
    hide Value, Pow10;
    if |b| != 0 && |b| < 10 {
      var neg, i := false, 0;
      if b[0] == MINUS {
        neg := true;
        i := i + 1;
      } else if b[0] == PLUS {
        i := i + 1;
      }
      var start := i;
      assert Unsigned(b) == b[start..];
      if |b| != i {
        var n := 0;
        ValueOfNothing(b[start..start]);
        while i < |b| && ZERO <= b[i] <= ZERO + 9
          invariant start <= i <= |b|
          invariant AllDigits(b[start..i])
          invariant n == Value(b[start..i])
        {
          hide ParseInt;
          ScanDigit(b, start, i);
          n := (b[i] - ZERO) as int + n * 10;
          i := i + 1;
        }
        if |b| == i {
          assert b[start..i] == Unsigned(b);
          NineDigitsFit(Unsigned(b));
          if neg {
            n := -n;
          }
          return Some(n);
        }
      }
    }
    return ParseInt(b);
  }

  lemma ValueOfNothing(s: bytes)
    requires s == []
    ensures Value(s) == 0
  {
  }

  lemma ScanDigit(b: bytes, start: nat, i: nat)
    requires start <= i < |b| && AllDigits(b[start..i]) && IsDigit(b[i])
    ensures AllDigits(b[start..i + 1])
    ensures Value(b[start..i + 1]) == Value(b[start..i]) * 10 + (b[i] - ZERO) as int
  {
    ValueAppend(b[start..i], b[i]);
    assert b[start..i] + [b[i]] == b[start..i + 1];
  }

  /** Nine digits cannot overflow the accumulator of the fast path. */
  lemma NineDigitsFit(s: bytes)
    requires AllDigits(s) && |s| < 10
    ensures Value(s) < 1_000_000_000
  {
    ValueBelowPow10(s);
    Pow10Monotone(|s|, 9);
    assert Pow10(9) == 1_000_000_000 by {
      assert Pow10(3) == 1000;
      assert Pow10(6) == 1000 * Pow10(3);
      assert Pow10(9) == 1000 * Pow10(6);
    }
  }

  lemma {:induction false} Pow10Monotone(a: nat, b: nat)
    requires a <= b
    ensures Pow10(a) <= Pow10(b)
  {
    if a < b {
      Pow10Monotone(a, b - 1);
    }
  }

  const MIN_ITOA: int := -128
  const MAX_ITOA: int := 32768
  const TABLE_SIZE: nat := MAX_ITOA - MIN_ITOA + 1

  /** The decimal texts of the first `k` table entries, one after the other. */
  function TableText(k: nat): bytes {
    if k == 0 then [] else TableText(k - 1) + FormatInt(k - 1 + MIN_ITOA)
  }

  lemma {:induction false} TableTextPrefix(j: nat, k: nat)
    requires j <= k
    ensures TableText(j) <= TableText(k)
  {
    if j < k {
      TableTextPrefix(j, k - 1);
    }
  }

  lemma TableEntryShort(k: nat)
    requires k < TABLE_SIZE
    ensures |FormatInt(k + MIN_ITOA)| <= 6
  {
    assert Pow10(5) == 100 * Pow10(3) == 100_000;
    FormatLength(k + MIN_ITOA, 5);
  }

  /** The offset table and the shared text built once by init(). */
  class ItoaTable {
    const offset: array<uint32>
    var text: bytes

    ghost predicate Valid()
      reads this, offset
    {
      && offset.Length == TABLE_SIZE
      && text == TableText(TABLE_SIZE)
      && forall j :: 0 <= j < TABLE_SIZE ==> offset[j] as int == |TableText(j)|
    }

    constructor ()
      ensures Valid() && fresh(offset)
    {
      hide FormatInt;
      var o := new uint32[TABLE_SIZE];
      var b: bytes := [];
      for i := 0 to TABLE_SIZE
        invariant b == TableText(i)
        invariant |b| <= 6 * i
        invariant forall j :: 0 <= j < i ==> o[j] as int == |TableText(j)|
      {
        o[i] := |b| as uint32;
        TableEntryShort(i);
        b := b + FormatInt(i + MIN_ITOA);
      }
      offset := o;
      text := b;
    }

    /** Looking an entry up gives the same text as formatting the number. */
    method Itoa(i: int) returns (s: bytes)
      requires Valid()
      ensures s == FormatInt(i)
    {
      if MIN_ITOA <= i <= MAX_ITOA {
        var k := i - MIN_ITOA;
        TableTextPrefix(k, TABLE_SIZE);
        TableTextPrefix(k + 1, TABLE_SIZE);
        var beg := offset[k] as int;
        if i == MAX_ITOA {
          return text[beg..];
        }
        var end := offset[k + 1] as int;
        assert text[..end] == TableText(k + 1);
        assert text[beg..end] == text[..end][beg..];
        return text[beg..end];
      }
      return FormatInt(i);
    }

    /** The two conversions undo each other on every 64-bit integer. */
    method ItoaThenBtoi64(v: int) returns (back: Option<int>)
      requires Valid() && IsInt64(v)
      ensures back == Some(v)
    {
      var s := Itoa(v);
      ParseFormat(v);
      back := Btoi64(s);
    }
  }
}
