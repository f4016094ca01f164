/** The latency window: a fixed buffer overwritten in place behind a wrapping head. */
module RingBuffers {
  import opened Wrappers
  import opened Percentile

  const RING_CAPACITY: U64 := 1024

  // The value of a ring: its slots and the index of the next write.
  datatype Ring = Ring(buf: seq<nat>, head: U64)

  function Empty(capacity: U64): Ring {
    Ring(seq(capacity, _ => 0), 0)
  }

  function Pushed(r: Ring, v: nat): Ring
    requires |r.buf| > 0
  {
    Ring(r.buf[r.head % |r.buf| := v], WrapU64(r.head + 1))
  }

  // The ring after pushing `vals`, oldest first.
  ghost function After(capacity: U64, vals: seq<nat>): (r: Ring)
    requires capacity > 0
    ensures |r.buf| == capacity
  {
    if vals == [] then Empty(capacity)
    else Pushed(After(capacity, vals[..|vals| - 1]), vals[|vals| - 1])
  }

  // The most recent `capacity` values, or all of them while there are fewer.
  function Latest(vals: seq<nat>, capacity: nat): seq<nat> {
    if |vals| <= capacity then vals else vals[|vals| - capacity..]
  }

  function Zeros(n: nat): seq<nat> {
    seq(n, _ => 0)
  }

  // The promise of a ring: the latest values, and zeros in the slots not used yet.
  ghost predicate HoldsLatest(capacity: U64, vals: seq<nat>)
    requires capacity > 0
  {
    var w := Latest(vals, capacity);
    multiset(After(capacity, vals).buf) == multiset(w) + multiset(Zeros(capacity - |w|))
  }

  class RingBuffer {
    const buf: array<nat>
    var head: U64

    ghost function Model(): Ring
      reads this, buf
    {
      Ring(buf[..], head)
    }

    constructor (capacity: U64)
      ensures Model() == Empty(capacity) && buf.Length == capacity
      ensures fresh(buf)
    {
      buf := new nat[capacity](_ => 0);
      head := 0;
    }

    // With no slots the slot index would be a remainder by zero, so a caller must have one.
    method Push(v: nat)
      requires buf.Length > 0
      modifies this`head, buf
      ensures Model() == Pushed(old(Model()), v)
    {
      var cap := buf.Length;
      buf[head % cap] := v;
      head := WrapU64(head + 1);
    }

    // In microseconds: the gauge shows a thousandth of it.
    method P99Us() returns (us: int)
      ensures us == P99(buf[..])
    {
      var samples: seq<int> := [];
      for i := 0 to buf.Length
        invariant samples == NonZero(buf[..i])
      {
        assert buf[..i + 1][..i] == buf[..i];
        if buf[i] > 0 {
          samples := samples + [buf[i]];
        }
      }
      assert buf[..buf.Length] == buf[..];
      if samples == [] {
        return 0;
      }
      samples := Sort(samples);
      us := samples[P99Index(|samples|)];
    }
  }

  // ---- Slot arithmetic ----

  lemma {:induction false} MultiplesStayAway(m: int, k: int)
    requires 0 < m
    ensures k >= 1 ==> m * k >= m
    ensures k <= -1 ==> m * k <= -m
  {}

  lemma {:induction false} QuotientUnique(m: int, q: int, r: int, x: int)
    requires 0 <= r < m && x == m * q + r
    ensures x % m == r
  {
    var k := x / m - q;
    assert x == m * (x / m) + x % m;
    assert m * k == m * (x / m) - m * q;
    MultiplesStayAway(m, k);
  }

  lemma {:induction false} MulMod(m: int, q: int, r: int)
    requires 0 < m
    ensures (m * q + r) % m == r % m
  {
    assert r == m * (r / m) + r % m;
    assert m * (q + r / m) == m * q + m * (r / m);
    QuotientUnique(m, q + r / m, r % m, m * q + r);
  }

  lemma {:induction false} DistinctSlots(m: int, a: int, b: int)
    requires 0 < a - b < m
    ensures a % m != b % m
  {
    var k := a / m - b / m;
    assert a == m * (a / m) + a % m && b == m * (b / m) + b % m;
    assert m * k == m * (a / m) - m * (b / m);
    MultiplesStayAway(m, k);
  }

  // Reducing modulo 2^64 first does not move the slot.
  lemma {:induction false} SlotSurvivesWrap(cap: U64, n: nat)
    requires cap > 0
    requires n < TWO_64 || TWO_64 % cap == 0
    ensures WrapU64(n) % cap == n % cap
  {
    if n >= TWO_64 {
      var k, q := TWO_64 / cap, n / TWO_64;
      assert n == cap * (k * q) + WrapU64(n) by {
        assert TWO_64 == cap * k;
        assert cap * (k * q) == (cap * k) * q;
      }
      MulMod(cap, k * q, WrapU64(n));
    }
  }

  // ---- The ring holds a window ----

  // Value j sits in slot j % cap as long as it is among the latest.
  ghost predicate SlotsFilled(cap: U64, vals: seq<nat>, buf: seq<nat>)
    requires 0 < cap == |buf|
  {
    forall j :: 0 <= j < |vals| && |vals| - cap <= j ==> Slot(buf, j) == vals[j]
  }

  function Slot(buf: seq<nat>, j: nat): nat
    requires buf != []
  {
    buf[j % |buf|]
  }

  ghost predicate RestZero(n: nat, buf: seq<nat>) {
    forall i :: n <= i < |buf| ==> buf[i] == 0
  }

  lemma {:induction false} SlotsAfter(cap: U64, vals: seq<nat>)
    requires cap > 0
    requires |vals| <= TWO_64 || TWO_64 % cap == 0
    ensures var r := After(cap, vals);
      r.head == WrapU64(|vals|) && SlotsFilled(cap, vals, r.buf) && RestZero(|vals|, r.buf)
  {
    if vals == [] {
    } else {
      var n := |vals| - 1;
      var prev := After(cap, vals[..n]);
      SlotsAfter(cap, vals[..n]);
      SlotSurvivesWrap(cap, n);
      HeadAdvances(n);
      SlotsAfterPush(cap, vals, prev);
    }
  }

  lemma {:induction false} HeadAdvances(n: nat)
    ensures WrapU64(WrapU64(n) + 1) == WrapU64(n + 1)
  {}

  lemma {:induction false} SlotsAfterPush(cap: U64, vals: seq<nat>, prev: Ring)
    requires 0 < cap == |prev.buf| && vals != []
    requires prev.head % cap == (|vals| - 1) % cap
    requires SlotsFilled(cap, vals[..|vals| - 1], prev.buf) && RestZero(|vals| - 1, prev.buf)
    ensures var buf := Pushed(prev, vals[|vals| - 1]).buf;
      SlotsFilled(cap, vals, buf) && RestZero(|vals|, buf)
  {
    var n := |vals| - 1;
    var buf := Pushed(prev, vals[n]).buf;
    forall j | 0 <= j < |vals| && |vals| - cap <= j
      ensures Slot(buf, j) == vals[j]
    {
      if j < n {
        DistinctSlots(cap, n, j);
        assert Slot(prev.buf, j) == vals[..n][j];
      }
    }
    if n < cap {
      QuotientUnique(cap, 0, n, n);
    }
  }

  lemma {:induction false} HoldsLatestWhileSlotsSurvive(cap: U64, vals: seq<nat>)
    requires cap > 0
    requires |vals| <= TWO_64 || TWO_64 % cap == 0
    ensures HoldsLatest(cap, vals)
  {
    SlotsAfter(cap, vals);
    if |vals| <= cap {
      YoungRing(cap, vals, After(cap, vals).buf);
    } else {
      FullRing(cap, vals, After(cap, vals).buf);
    }
  }

  lemma {:induction false} YoungRing(cap: U64, vals: seq<nat>, buf: seq<nat>)
    requires |vals| <= cap == |buf| && cap > 0
    requires SlotsFilled(cap, vals, buf) && RestZero(|vals|, buf)
    ensures multiset(buf) == multiset(vals) + multiset(Zeros(cap - |vals|))
  {
    forall i | 0 <= i < |vals| ensures buf[i] == vals[i] {
      QuotientUnique(cap, 0, i, i);
      assert Slot(buf, i) == vals[i];
    }
    assert buf == vals + Zeros(cap - |vals|);
  }

  // A full ring is a rotation of the latest values.
  lemma {:induction false} FullRing(cap: U64, vals: seq<nat>, buf: seq<nat>)
    requires 0 < cap == |buf| < |vals|
    requires SlotsFilled(cap, vals, buf)
    ensures multiset(buf) == multiset(Latest(vals, cap)) + multiset(Zeros(0))
  {
    var n := |vals|;
    var h := n % cap;
    var w := Latest(vals, cap);
    forall k | 0 <= k < cap ensures w[k] == (buf[h..] + buf[..h])[k] {
      assert Slot(buf, n - cap + k) == vals[n - cap + k];
      SlotOfOffset(cap, n, k);
    }
    assert w == buf[h..] + buf[..h];
    assert buf == buf[..h] + buf[h..];
  }

  lemma {:induction false} SlotOfOffset(cap: int, n: int, k: int)
    requires 0 <= k < cap
    ensures (n - cap + k) % cap == if n % cap + k < cap then n % cap + k else n % cap + k - cap
  {
    var h, q := n % cap, n / cap;
    assert n == cap * q + h;
    assert cap * (q - 1) == cap * q - cap;
    if h + k < cap {
      QuotientUnique(cap, q - 1, h + k, n - cap + k);
    } else {
      QuotientUnique(cap, q, h + k - cap, n - cap + k);
    }
  }

  // A run that a capacity not dividing 2^64 mishandles: only the oldest value is a 1,
  // and it is still there after the push that should have evicted it.
  function StaleRun(cap: U64): seq<nat> {
    seq(TWO_64 + 1, i => if i == TWO_64 - cap then 1 else 2)
  }

  lemma {:induction false} StaleAfterWrap(cap: U64)
    requires cap > 0 && TWO_64 % cap != 0
    ensures !HoldsLatest(cap, StaleRun(cap))
  {
    var vals := StaleRun(cap);
    var pre := vals[..TWO_64];
    SlotsAfter(cap, pre);
    var r := TWO_64 % cap;
    var oldest := TWO_64 - cap;
    assert oldest % cap == r by {
      assert oldest == cap * (-1) + TWO_64;
      MulMod(cap, -1, TWO_64);
    }
    assert After(cap, pre).head == 0;
    assert Slot(After(cap, pre).buf, oldest) == pre[oldest] == 1;
    var buf := After(cap, vals).buf;
    assert buf == After(cap, pre).buf[0 := 2] by {
      assert vals[TWO_64] == 2;
    }
    assert buf[r] == 1;
    assert 1 in multiset(buf);
    var w := Latest(vals, cap);
    assert |w| == cap;
    assert forall k :: 0 <= k < |w| ==> w[k] == 2;
    assert 1 !in w;
  }

  // The ring keeps its promise for every run exactly when the capacity divides 2^64.
  lemma {:induction false} WindowIffCapacityDivides(cap: U64)
    requires cap > 0
    ensures (forall vals :: HoldsLatest(cap, vals)) <==> TWO_64 % cap == 0
  {
    if TWO_64 % cap == 0 {
      forall vals: seq<nat> ensures HoldsLatest(cap, vals) {
        HoldsLatestWhileSlotsSurvive(cap, vals);
      }
    } else {
      StaleAfterWrap(cap);
    }
  }

  // The percentile of the ring is the percentile of the latest latencies, after any run.
  lemma {:induction false} P99OfRing(vals: seq<nat>)
    ensures P99(After(RING_CAPACITY, vals).buf) == P99(Latest(vals, 1024))
  {
    var w := Latest(vals, RING_CAPACITY);
    var z := Zeros(RING_CAPACITY - |w|);
    HoldsLatestWhileSlotsSurvive(RING_CAPACITY, vals);
    P99DependsOnMultiset(After(RING_CAPACITY, vals).buf, w + z);
    NonZeroDropsZeros(w, z);
  }
}
