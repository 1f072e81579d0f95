/** Value types and finite-set facts shared by the router's services. */
module Common {

  datatype Option<+T> = None | Some(value: T)

  const U16_SIZE := 0x1_0000
  const U32_SIZE := 0x1_0000_0000

  type byte = b: nat | b < 256
  type u16 = n: nat | n < U16_SIZE
  type u32 = n: nat | n < U32_SIZE

  type Bytes = seq<byte>

  /** An IPv4 address, as its 32-bit big-endian value. */
  type Ip = u32

  const BROADCAST_IP: Ip := 0xFFFF_FFFF

  /** The length of a DNS header, whose first two bytes are the transaction ID. */
  const DNS_HEADER_SIZE := 12

  /** A reading of the monotone clock, in nanoseconds. */
  type Time = nat

  const NANOS_PER_SEC := 1_000_000_000

  function Secs(s: nat): Time {
    s * NANOS_PER_SEC
  }

  function Min(a: nat, b: nat): nat {
    if a <= b then a else b
  }

  function Max(a: nat, b: nat): nat {
    if a <= b then b else a
  }

  function Pow2(n: nat): (r: nat)
    ensures r > 0
  {
    if n == 0 then 1 else 2 * Pow2(n - 1)
  }

  lemma {:induction false} Pow2Sum(a: nat, b: nat)
    ensures Pow2(a + b) == Pow2(a) * Pow2(b)
  {
    if a > 0 {
      Pow2Sum(a - 1, b);
      assert Pow2(a) * Pow2(b) == 2 * (Pow2(a - 1) * Pow2(b));
    }
  }

  lemma Pow2At32()
    ensures Pow2(32) == U32_SIZE
  {
    assert Pow2(8) == 256;
    Pow2Sum(8, 8);
    Pow2Sum(16, 16);
  }

  /** The 16-bit big-endian word at the front of a datagram. */
  function Word(hi: byte, lo: byte): u16 {
    hi * 256 + lo
  }

  lemma {:induction false} SubsetSize<T>(a: set<T>, b: set<T>)
    requires a <= b
    ensures |a| <= |b|
    ensures |b - a| == |b| - |a|
  {
  }

  /** The integers from `lo` up to but not including `hi`. */
  ghost function Range(lo: int, hi: int): (r: set<int>)
    ensures forall i :: i in r <==> lo <= i < hi
    decreases hi - lo
  {
    if lo < hi then Range(lo, hi - 1) + {hi - 1} else {}
  }

  lemma {:induction false} RangeSize(lo: int, hi: int)
    requires lo <= hi
    ensures |Range(lo, hi)| == hi - lo
    decreases hi - lo
  {
    if lo < hi {
      RangeSize(lo, hi - 1);
    }
  }

  /** Pigeonhole: an injective function does not shrink a set. */
  lemma {:induction false} InjectiveImageSize<T(!new), U(!new)>(s: set<T>, f: T -> U, image: set<U>)
    requires forall x | x in s :: f(x) in image
    requires forall x, y | x in s && y in s && f(x) == f(y) :: x == y
    ensures |s| <= |image|
    decreases |s|
  {
    if s != {} {
      var x :| x in s;
      InjectiveImageSize(s - {x}, f, image - {f(x)});
    }
  }

  /** A clock that never runs backwards; how far it moves between two readings is unknown. */
  class Clock {
    var now: Time

    constructor (start: Time)
      ensures now == start
    {
      now := start;
    }

    method Now() returns (t: Time)
      modifies this
      ensures t == now && old(now) <= now
    {
      t :| now <= t;
      now := t;
    }
  }
}
