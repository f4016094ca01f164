/** The 99th percentile of a latency window: a floor rank over its sorted non-zero entries. */
module Percentile {
  // The samples that count: zero marks a slot never written.
  function NonZero(s: seq<int>): seq<int> {
    if s == [] then []
    else
      var v := s[|s| - 1];
      NonZero(s[..|s| - 1]) + if v > 0 then [v] else []
  }

  ghost predicate Sorted(s: seq<int>) {
    forall i, j :: 0 <= i < j < |s| ==> s[i] <= s[j]
  }

  function Insert(x: int, s: seq<int>): (r: seq<int>)
    requires Sorted(s)
    ensures Sorted(r)
    ensures multiset(r) == multiset(s) + multiset{x}
    ensures |r| == |s| + 1
    ensures r[0] == if s == [] || x <= s[0] then x else s[0]
  {
    if s == [] || x <= s[0] then [x] + s
    else
      assert s == [s[0]] + s[1..];
      [s[0]] + Insert(x, s[1..])
  }

  // What `sort_unstable` leaves in the vector.
  function Sort(s: seq<int>): (r: seq<int>)
    ensures Sorted(r)
    ensures multiset(r) == multiset(s)
    ensures |r| == |s|
  {
    if s == [] then []
    else
      assert s == [s[0]] + s[1..];
      var r := Insert(s[0], Sort(s[1..]));
      assert |multiset(r)| == |multiset(s)|;
      r
  }

  // `(n * 99 / 100).saturating_sub(1)`
  function P99Index(n: nat): (i: nat)
    requires n > 0
    ensures i < n
  {
    if n * 99 / 100 == 0 then 0 else n * 99 / 100 - 1
  }

  function P99(window: seq<int>): int {
    var s := Sort(NonZero(window));
    if s == [] then 0 else s[P99Index(|s|)]
  }

  // ---- The rank, stated without sorting ----

  function CountBelow(s: seq<int>, bound: int): (n: nat)
    ensures n <= |s|
  {
    if s == [] then 0
    else CountBelow(s[1..], bound) + if s[0] < bound then 1 else 0
  }

  lemma {:induction false} CountBelowConcat(s: seq<int>, t: seq<int>, bound: int)
    ensures CountBelow(s + t, bound) == CountBelow(s, bound) + CountBelow(t, bound)
  {
    if s == [] {
      assert s + t == t;
    } else {
      assert (s + t)[1..] == s[1..] + t;
      CountBelowConcat(s[1..], t, bound);
    }
  }

  lemma {:induction false} RemoveOne(t: seq<int>, i: nat, bound: int)
    requires i < |t|
    ensures var rest := t[..i] + t[i + 1..];
      && multiset(t) == multiset(rest) + multiset{t[i]}
      && CountBelow(t, bound) == CountBelow(rest, bound) + if t[i] < bound then 1 else 0
  {
    assert t == t[..i] + ([t[i]] + t[i + 1..]);
    CountBelowConcat(t[..i], [t[i]] + t[i + 1..], bound);
    CountBelowConcat(t[..i], t[i + 1..], bound);
  }

  lemma {:induction false} CountBelowPermuted(s: seq<int>, t: seq<int>, bound: int)
    requires multiset(s) == multiset(t)
    ensures CountBelow(s, bound) == CountBelow(t, bound)
  {
    if s == [] {
      assert |multiset(t)| == 0;
    } else {
      assert s[0] in multiset(t);
      var i :| 0 <= i < |t| && t[i] == s[0];
      RemoveOne(t, i, bound);
      assert multiset(s[1..]) == multiset(s) - multiset{s[0]} by {
        assert s == [s[0]] + s[1..];
      }
      assert multiset(t[..i] + t[i + 1..]) == multiset(t) - multiset{s[0]};
      CountBelowPermuted(s[1..], t[..i] + t[i + 1..], bound);
    }
  }

  lemma {:induction false} CountBelowSorted(s: seq<int>, i: nat)
    requires Sorted(s) && i < |s|
    ensures CountBelow(s, s[i]) <= i < CountBelow(s, s[i] + 1)
  {
    assert s == s[..i + 1] + s[i + 1..] && s == s[..i] + s[i..];
    CountBelowConcat(s[..i + 1], s[i + 1..], s[i] + 1);
    CountBelowConcat(s[..i], s[i..], s[i]);
    CountAll(s[..i + 1], s[i] + 1);
    CountNone(s[i..], s[i]);
  }

  lemma {:induction false} CountAll(s: seq<int>, bound: int)
    requires forall i :: 0 <= i < |s| ==> s[i] < bound
    ensures CountBelow(s, bound) == |s|
  {
    if s == [] {
    } else {
      CountAll(s[1..], bound);
    }
  }

  lemma {:induction false} CountNone(s: seq<int>, bound: int)
    requires forall i :: 0 <= i < |s| ==> bound <= s[i]
    ensures CountBelow(s, bound) == 0
  {
    if s == [] {
    } else {
      CountNone(s[1..], bound);
    }
  }

  lemma {:induction false} CountBelowMonotone(s: seq<int>, a: int, b: int)
    requires a <= b
    ensures CountBelow(s, a) <= CountBelow(s, b)
  {
    if s == [] {
    } else {
      CountBelowMonotone(s[1..], a, b);
    }
  }

  // The number of samples that must be at or below the percentile.
  function Quota(n: nat): nat {
    if n * 99 / 100 == 0 then 1 else n * 99 / 100
  }

  // The percentile is the only sample with fewer than Quota samples under it and at
  // least Quota at or under it.
  lemma {:induction false} P99IsTheRank(window: seq<int>, x: int)
    requires NonZero(window) != []
    ensures var w := NonZero(window);
      x == P99(window) <==> x in w && CountBelow(w, x) < Quota(|w|) <= CountBelow(w, x + 1)
  {
    var w, p := NonZero(window), P99(window);
    P99Ranked(window);
    if x < p {
      CountBelowMonotone(w, x + 1, p);
    } else if p < x {
      CountBelowMonotone(w, p + 1, x);
    }
  }

  lemma {:induction false} P99Ranked(window: seq<int>)
    requires NonZero(window) != []
    ensures var w, p := NonZero(window), P99(window);
      p in w && CountBelow(w, p) < Quota(|w|) <= CountBelow(w, p + 1)
  {
    var w := NonZero(window);
    SortedRank(Sort(w), w, P99Index(|w|));
  }

  lemma {:induction false} SortedRank(s: seq<int>, w: seq<int>, i: nat)
    requires Sorted(s) && multiset(s) == multiset(w)
    requires i < |s|
    ensures s[i] in w && CountBelow(w, s[i]) <= i < CountBelow(w, s[i] + 1)
  {
    assert s[i] in multiset(w);
    CountBelowSorted(s, i);
    CountBelowPermuted(s, w, s[i]);
    CountBelowPermuted(s, w, s[i] + 1);
  }

  // What the rank promises a reader of the gauge.
  lemma {:induction false} P99Bounds(window: seq<int>)
    requires NonZero(window) != []
    ensures var w, p := NonZero(window), P99(window);
      && p in w && p > 0
      && CountBelow(w, p + 1) >= 1
      && CountBelow(w, p + 1) >= |w| * 99 / 100
      && |w| - CountBelow(w, p + 1) <= (|w| + 99) / 100
  {
    P99IsTheRank(window, P99(window));
    NonZeroArePositive(window, P99(window));
  }

  // With no sample but zeros there is no percentile to show.
  lemma {:induction false} P99OfNothing(window: seq<int>)
    requires forall i :: 0 <= i < |window| ==> window[i] <= 0
    ensures P99(window) == 0
  {
    NothingCounts(window);
  }

  lemma {:induction false} NothingCounts(window: seq<int>)
    requires forall i :: 0 <= i < |window| ==> window[i] <= 0
    ensures NonZero(window) == []
  {
    if window == [] {
    } else {
      NothingCounts(window[..|window| - 1]);
    }
  }

  // ---- Only the multiset of the window matters ----

  lemma {:induction false} NonZeroCount(s: seq<int>, v: int)
    ensures multiset(NonZero(s))[v] == if v > 0 then multiset(s)[v] else 0
  {
    if s == [] {
    } else {
      var low, top := s[..|s| - 1], s[|s| - 1];
      NonZeroCount(low, v);
      assert s == low + [top];
      assert multiset(s) == multiset(low) + multiset{top};
      if top > 0 {
        assert NonZero(s) == NonZero(low) + [top];
        assert multiset(NonZero(s)) == multiset(NonZero(low)) + multiset{top};
      } else {
        assert NonZero(s) == NonZero(low) + [] == NonZero(low);
      }
    }
  }

  lemma {:induction false} NonZeroArePositive(s: seq<int>, v: int)
    requires v in NonZero(s)
    ensures v > 0
  {
    NonZeroCount(s, v);
    assert v in multiset(NonZero(s));
  }

  lemma {:induction false} SortedHeads(s: seq<int>, t: seq<int>)
    requires s != [] && Sorted(t) && multiset(s) == multiset(t)
    ensures t != [] && t[0] <= s[0]
  {
    assert s[0] in multiset(t);
    var i :| 0 <= i < |t| && t[i] == s[0];
  }

  lemma {:induction false} SortedUnique(s: seq<int>, t: seq<int>)
    requires Sorted(s) && Sorted(t) && multiset(s) == multiset(t)
    ensures s == t
  {
    if s == [] {
      assert |multiset(t)| == 0;
    } else {
      SortedHeads(s, t);
      SortedHeads(t, s);
      assert s == [s[0]] + s[1..] && t == [t[0]] + t[1..];
      assert multiset(s[1..]) == multiset(s) - multiset{s[0]};
      assert multiset(t[1..]) == multiset(t) - multiset{t[0]};
      SortedUnique(s[1..], t[1..]);
    }
  }

  lemma {:induction false} P99DependsOnMultiset(s: seq<int>, t: seq<int>)
    requires multiset(s) == multiset(t)
    ensures P99(s) == P99(t)
  {
    assert multiset(NonZero(s)) == multiset(NonZero(t)) by {
      forall v: int ensures multiset(NonZero(s))[v] == multiset(NonZero(t))[v] {
        NonZeroCount(s, v);
        NonZeroCount(t, v);
      }
    }
    SortedUnique(Sort(NonZero(s)), Sort(NonZero(t)));
  }

  lemma {:induction false} NonZeroDropsZeros(s: seq<int>, z: seq<int>)
    requires forall i :: 0 <= i < |z| ==> z[i] == 0
    ensures NonZero(s + z) == NonZero(s)
  {
    if z == [] {
      assert s + z == s;
    } else {
      assert (s + z)[..|s + z| - 1] == s + z[..|z| - 1];
      NonZeroDropsZeros(s, z[..|z| - 1]);
    }
  }
}
