/** Combining the raw values of a key: expired ones are filtered out in place, and the middle one
    of the rest is selected in place. */
module Median {
  import opened Primitives

  datatype Timestamped = Timestamped(value: int, timestamp: nat)

  datatype Settings = Settings(minimumCount: nat, expiresIn: nat)

  /** `timestamp + expires_in` is a `u128` addition. */
  predicate Fresh(cfg: Settings, now: nat, x: Timestamped) {
    (x.timestamp + cfg.expiresIn) % U128_LIMIT > now
  }

  /** The age of `x` is below the expiry. */
  predicate Live(cfg: Settings, now: nat, x: Timestamped) {
    now < x.timestamp + cfg.expiresIn
  }

  /** For every age: what is kept is what has not expired, as long as the sum is a `u128`; one that
      is not is short by 2^128. */
  lemma FreshIff(cfg: Settings, now: nat, x: Timestamped)
    requires x.timestamp < U128_LIMIT && cfg.expiresIn < U128_LIMIT
    ensures Fresh(cfg, now, x) <==>
      now + (if x.timestamp + cfg.expiresIn < U128_LIMIT then 0 else U128_LIMIT) < x.timestamp + cfg.expiresIn
    ensures x.timestamp + cfg.expiresIn < U128_LIMIT ==> (Fresh(cfg, now, x) <==> Live(cfg, now, x))
  {
    var sum := x.timestamp + cfg.expiresIn;
    if sum >= U128_LIMIT {
      assert sum % U128_LIMIT == sum - U128_LIMIT;
    }
  }

  function Filter(cfg: Settings, now: nat, s: seq<Timestamped>): (r: seq<Timestamped>)
    ensures |r| <= |s|
  {
    if s == [] then []
    else
      var n := |s| - 1;
      Filter(cfg, now, s[..n]) + if Fresh(cfg, now, s[n]) then [s[n]] else []
  }

  /** How many values of `s` are below `v`, or at most `v` when `orEqual`. */
  function Count(s: seq<Timestamped>, v: int, orEqual: bool): (c: nat)
    ensures c <= |s|
  {
    if s == [] then 0
    else
      var n := |s| - 1;
      Count(s[..n], v, orEqual) + if Hit(s[n], v, orEqual) then 1 else 0
  }

  predicate Hit(x: Timestamped, v: int, orEqual: bool) {
    x.value < v || (orEqual && x.value == v)
  }

  /** `v` is the value at index `k` of `s` in sorted order. */
  predicate IsNth(s: seq<Timestamped>, k: nat, v: int) {
    Count(s, v, false) <= k < Count(s, v, true)
  }

  // ---------------------------------------------------------------- the code

  /** `Vec::retain`: the fresh values move to the front, in order; `n` is the new length. */
  method Retain(cfg: Settings, now: nat, a: array<Timestamped>) returns (n: nat)
    modifies a
    ensures n <= a.Length && a[..n] == Filter(cfg, now, old(a[..]))
    ensures forall x: Timestamped | x.timestamp + cfg.expiresIn < U128_LIMIT ::
      multiset(a[..n])[x] == if Live(cfg, now, x) then multiset(old(a[..]))[x] else 0
  {
    n := 0;
    for i := 0 to a.Length
      invariant n <= i
      invariant a[..n] == Filter(cfg, now, old(a[..i]))
      invariant a[i..] == old(a[i..])
    {
      PrefixStep(old(a[..]), i);
      assert old(a[..])[..i] == old(a[..i]) && old(a[..])[..i + 1] == old(a[..i + 1]);
      var x := a[i];
      assert x == a[i..][0] == old(a[i]);
      if Fresh(cfg, now, x) {
        a[n] := x;
        n := n + 1;
      }
    }
    assert old(a[..a.Length]) == old(a[..]);
    KeepsLive(cfg, now, old(a[..]));
  }

  /** Moves the value of rank `k` among the first `n` to index `k`, smaller ones before it and
      larger ones after it. The library's own algorithm is not part of this model; this one
      selects the smallest remaining value `k + 1` times. */
  method SelectNth(a: array<Timestamped>, n: nat, k: nat)
    requires k < n <= a.Length
    modifies a
    ensures multiset(a[..n]) == multiset(old(a[..n]))
    ensures forall i | 0 <= i < k :: a[i].value <= a[k].value
    ensures forall i | k < i < n :: a[k].value <= a[i].value
  {
    for i := 0 to k + 1
      invariant multiset(a[..n]) == multiset(old(a[..n]))
      invariant forall p, q | 0 <= p < i && p < q < n :: a[p].value <= a[q].value
    {
      var least := IndexOfLeast(a, i, n);
      ghost var before := a[..n];
      a[i], a[least] := a[least], a[i];
      assert a[..n] == before[i := before[least]][least := before[i]];
      SwapKeepsMultiset(before, i, least);
    }
  }

  method IndexOfLeast(a: array<Timestamped>, start: nat, n: nat) returns (least: nat)
    requires start < n <= a.Length
    ensures start <= least < n && forall q | start <= q < n :: a[least].value <= a[q].value
  {
    least := start;
    for j := start + 1 to n
      invariant start <= least < n
      invariant forall q | start <= q < j :: a[least].value <= a[q].value
    {
      if a[j].value < a[least].value {
        least := j;
      }
    }
  }

  lemma SwapKeepsMultiset<T>(s: seq<T>, i: nat, j: nat)
    requires i < |s| && j < |s|
    ensures multiset(s[i := s[j]][j := s[i]]) == multiset(s)
  {
  }

  method CombineData(cfg: Settings, now: nat, values: array<Timestamped>, prev: Option<Timestamped>)
    returns (r: Option<Timestamped>)
    modifies values
    ensures var kept := Filter(cfg, now, old(values[..]));
      if |kept| < cfg.minimumCount || |kept| == 0 then r == prev
      else r.Some? && r.value in kept && IsNth(kept, |kept| / 2, r.value.value)
    ensures forall x: Timestamped | x.timestamp + cfg.expiresIn < U128_LIMIT ::
      multiset(Filter(cfg, now, old(values[..])))[x] == if Live(cfg, now, x) then multiset(old(values[..]))[x] else 0
  {
    hide Live, Fresh, Filter, Count;
    KeepsLive(cfg, now, values[..]);
    var count := Retain(cfg, now, values);
    if count < cfg.minimumCount || count == 0 {
      return prev;
    }
    ghost var kept := values[..count];
    SelectNth(values, count, count / 2);
    r := Some(values[count / 2]);
    assert values[count / 2] in values[..count];
    assert r.value in multiset(kept);
    MiddleIsNth(values[..count], count / 2);
    CountPermuted(values[..count], kept, r.value.value, false);
    CountPermuted(values[..count], kept, r.value.value, true);
  }

  // ---------------------------------------------------------------- order statistics

  lemma {:induction false} CountMonotone(s: seq<Timestamped>, v: int, v': int)
    requires v < v'
    ensures Count(s, v, true) <= Count(s, v', false)
  {
    if s != [] {
      CountMonotone(s[..|s| - 1], v, v');
    }
  }

  /** At most one value has a given rank. */
  lemma NthIsUnique(s: seq<Timestamped>, k: nat, v: int, v': int)
    requires IsNth(s, k, v) && IsNth(s, k, v')
    ensures v == v'
  {
    if v < v' {
      CountMonotone(s, v, v');
    } else if v' < v {
      CountMonotone(s, v', v);
    }
  }

  lemma {:induction false} CountSplit(s: seq<Timestamped>, t: seq<Timestamped>, v: int, orEqual: bool)
    ensures Count(s + t, v, orEqual) == Count(s, v, orEqual) + Count(t, v, orEqual)
  {
    if t == [] {
      assert s + t == s;
    } else {
      assert (s + t)[..|s| + |t| - 1] == s + t[..|t| - 1];
      CountSplit(s, t[..|t| - 1], v, orEqual);
    }
  }

  lemma {:induction false} CountAll(s: seq<Timestamped>, v: int, orEqual: bool)
    ensures (forall x | x in s :: Hit(x, v, orEqual)) ==> Count(s, v, orEqual) == |s|
    ensures (forall x | x in s :: !Hit(x, v, orEqual)) ==> Count(s, v, orEqual) == 0
  {
    if s != [] {
      CountAll(s[..|s| - 1], v, orEqual);
    }
  }

  lemma MiddleIsNth(s: seq<Timestamped>, k: nat)
    requires k < |s|
    requires forall i | 0 <= i < k :: s[i].value <= s[k].value
    requires forall i | k < i < |s| :: s[k].value <= s[i].value
    ensures IsNth(s, k, s[k].value)
  {
    var v := s[k].value;
    assert s == s[..k + 1] + s[k + 1..] && s == s[..k] + s[k..];
    CountSplit(s[..k + 1], s[k + 1..], v, true);
    CountAll(s[..k + 1], v, true);
    CountSplit(s[..k], s[k..], v, false);
    CountAll(s[k..], v, false);
  }

  lemma CountOne(x: Timestamped, v: int, orEqual: bool)
    ensures Count([x], v, orEqual) == if Hit(x, v, orEqual) then 1 else 0
  {
    assert [x][..0] == [];
  }

  lemma CountWithout(s: seq<Timestamped>, i: nat, v: int, orEqual: bool)
    requires i < |s|
    ensures Count(s, v, orEqual)
         == Count(s[..i] + s[i + 1..], v, orEqual) + if Hit(s[i], v, orEqual) then 1 else 0
  {
    assert s == s[..i] + ([s[i]] + s[i + 1..]);
    CountSplit(s[..i], [s[i]] + s[i + 1..], v, orEqual);
    CountSplit([s[i]], s[i + 1..], v, orEqual);
    CountSplit(s[..i], s[i + 1..], v, orEqual);
    CountOne(s[i], v, orEqual);
  }

  lemma {:induction false} CountPermuted(s: seq<Timestamped>, t: seq<Timestamped>, v: int, orEqual: bool)
    requires multiset(s) == multiset(t)
    ensures Count(s, v, orEqual) == Count(t, v, orEqual)
    decreases |s|
  {
    if s == [] {
      assert |multiset(t)| == 0;
    } else {
      var n := |s| - 1;
      assert s[n] in multiset(t);
      var i :| 0 <= i < |t| && t[i] == s[n];
      MultisetWithout(s, n);
      MultisetWithout(t, i);
      assert s[..n] + s[n + 1..] == s[..n];
      CountPermuted(s[..n], t[..i] + t[i + 1..], v, orEqual);
      CountWithout(t, i, v, orEqual);
    }
  }

  ghost predicate Sorted(s: seq<Timestamped>) {
    forall i, j | 0 <= i < j < |s| :: s[i].value <= s[j].value
  }

  /** The value of rank `k` is element `k` of the sorted list, whichever way ties are broken. */
  lemma NthOfSorted(s: seq<Timestamped>, sorted: seq<Timestamped>, k: nat, v: int)
    requires multiset(s) == multiset(sorted) && Sorted(sorted) && k < |sorted|
    ensures IsNth(s, k, v) <==> v == sorted[k].value
  {
    CountPermuted(s, sorted, v, false);
    CountPermuted(s, sorted, v, true);
    MiddleIsNth(sorted, k);
    if IsNth(s, k, v) {
      NthIsUnique(sorted, k, v, sorted[k].value);
    }
  }

  lemma {:induction false} FilterMultiset(cfg: Settings, now: nat, s: seq<Timestamped>, x: Timestamped)
    ensures multiset(Filter(cfg, now, s))[x] == if Fresh(cfg, now, x) then multiset(s)[x] else 0
  {
    if s != [] {
      var n := |s| - 1;
      FilterMultiset(cfg, now, s[..n], x);
      assert s == s[..n] + [s[n]];
    }
  }

  /** `at` lists, in order, the places in `s` of the values that are fresh, and `r` are these values. */
  ghost predicate FreshPlaces(cfg: Settings, now: nat, s: seq<Timestamped>, at: seq<nat>, r: seq<Timestamped>) {
    && |at| == |r|
    && (forall k | 0 <= k < |at| :: at[k] < |s| && r[k] == s[at[k]] && Fresh(cfg, now, r[k]))
    && (forall k, l | 0 <= k < l < |at| :: at[k] < at[l])
    && (forall i: nat | i < |s| && Fresh(cfg, now, s[i]) :: i in at)
  }

  lemma FreshPlacesStep(cfg: Settings, now: nat, s: seq<Timestamped>, at: seq<nat>, r: seq<Timestamped>)
    requires s != [] && FreshPlaces(cfg, now, s[..|s| - 1], at, r)
    ensures var n := |s| - 1;
      if Fresh(cfg, now, s[n]) then FreshPlaces(cfg, now, s, at + [n], r + [s[n]])
      else FreshPlaces(cfg, now, s, at, r)
  {
    hide Fresh;
    var n := |s| - 1;
    forall i: nat | i < n && Fresh(cfg, now, s[i]) ensures i in at {
      assert s[..n][i] == s[i];
    }
    assert n in at + [n];
  }

  /** The filter keeps the order: the k-th value kept is the k-th fresh one. */
  lemma {:induction false} FilterPlaces(cfg: Settings, now: nat, s: seq<Timestamped>) returns (at: seq<nat>)
    ensures FreshPlaces(cfg, now, s, at, Filter(cfg, now, s))
  {
    hide Fresh;
    at := [];
    if s != [] {
      hide FreshPlaces;
      var n := |s| - 1;
      at := FilterPlaces(cfg, now, s[..n]);
      FreshPlacesStep(cfg, now, s, at, Filter(cfg, now, s[..n]));
      if Fresh(cfg, now, s[n]) {
        at := at + [n];
      } else {
        assert Filter(cfg, now, s) == Filter(cfg, now, s[..n]);
      }
    }
  }

  /** Of each value all copies are kept while it is live, and none after. */
  lemma KeepsLive(cfg: Settings, now: nat, s: seq<Timestamped>)
    ensures forall x: Timestamped | x.timestamp + cfg.expiresIn < U128_LIMIT ::
      multiset(Filter(cfg, now, s))[x] == if Live(cfg, now, x) then multiset(s)[x] else 0
  {
    forall x: Timestamped | x.timestamp + cfg.expiresIn < U128_LIMIT
      ensures multiset(Filter(cfg, now, s))[x] == if Live(cfg, now, x) then multiset(s)[x] else 0
    {
      FilterMultiset(cfg, now, s, x);
      FreshIff(cfg, now, x);
    }
  }

  /** The combined value does not depend on the order in which the raw values are enumerated. */
  lemma OrderIrrelevant(cfg: Settings, now: nat, s: seq<Timestamped>, t: seq<Timestamped>, v: int, v': int)
    requires multiset(s) == multiset(t)
    ensures |Filter(cfg, now, s)| == |Filter(cfg, now, t)|
    ensures (IsNth(Filter(cfg, now, s), |Filter(cfg, now, s)| / 2, v)
             && IsNth(Filter(cfg, now, t), |Filter(cfg, now, t)| / 2, v')) ==> v == v'
  {
    var f, g := Filter(cfg, now, s), Filter(cfg, now, t);
    forall x ensures multiset(f)[x] == multiset(g)[x] {
      FilterMultiset(cfg, now, s, x);
      FilterMultiset(cfg, now, t, x);
    }
    assert multiset(f) == multiset(g);
    assert |f| == |multiset(f)| == |multiset(g)| == |g|;
    CountPermuted(f, g, v, false);
    CountPermuted(f, g, v, true);
    if IsNth(f, |f| / 2, v) && IsNth(g, |g| / 2, v') {
      NthIsUnique(g, |g| / 2, v, v');
    }
  }

  // ---------------------------------------------------------------- robustness

  function Faulty(honest: seq<bool>): nat {
    if honest == [] then 0
    else Faulty(honest[..|honest| - 1]) + if honest[|honest| - 1] then 0 else 1
  }

  lemma {:induction false} OnlyFaultyOutside(s: seq<Timestamped>, honest: seq<bool>, lo: int, hi: int, v: int)
    requires |s| == |honest|
    requires forall i | 0 <= i < |s| && honest[i] :: lo <= s[i].value <= hi
    ensures v < lo ==> Count(s, v, true) <= Faulty(honest)
    ensures v > hi ==> |s| - Count(s, v, false) <= Faulty(honest)
  {
    if s != [] {
      OnlyFaultyOutside(s[..|s| - 1], honest[..|s| - 1], lo, hi, v);
    }
  }

  /** While fewer than half of the values are faulty, the middle one lies between honest values. */
  lemma MedianBetweenHonest(s: seq<Timestamped>, honest: seq<bool>, lo: int, hi: int, v: int)
    requires |s| == |honest| && 2 * Faulty(honest) < |s|
    requires forall i | 0 <= i < |s| && honest[i] :: lo <= s[i].value <= hi
    requires IsNth(s, |s| / 2, v)
    ensures lo <= v <= hi
  {
    OnlyFaultyOutside(s, honest, lo, hi, v);
  }

  /** `s` with the value `v` in every faulty place. */
  function Spoiled(s: seq<Timestamped>, honest: seq<bool>, v: int): (r: seq<Timestamped>)
    requires |s| == |honest|
    ensures |r| == |s| && forall i | 0 <= i < |s| && honest[i] :: r[i] == s[i]
  {
    if s == [] then []
    else
      var n := |s| - 1;
      Spoiled(s[..n], honest[..n], v) + [if honest[n] then s[n] else s[n].(value := v)]
  }

  lemma {:induction false} SpoiledCount(s: seq<Timestamped>, honest: seq<bool>, hi: int)
    requires |s| == |honest|
    requires forall i | 0 <= i < |s| && honest[i] :: s[i].value <= hi
    ensures Count(Spoiled(s, honest, hi + 1), hi + 1, false) == |s| - Faulty(honest)
    ensures Count(Spoiled(s, honest, hi + 1), hi + 1, true) == |s|
  {
    if s != [] {
      var n := |s| - 1;
      SpoiledCount(s[..n], honest[..n], hi);
      assert Spoiled(s, honest, hi + 1)[..n] == Spoiled(s[..n], honest[..n], hi + 1);
    }
  }

  /** Half is too many, whatever the size: from any list, faulty values in at least half of the
      places can push the middle one above every honest value. */
  lemma HalfFaultyDecides(s: seq<Timestamped>, honest: seq<bool>, hi: int)
    requires |s| == |honest| > 0 && 2 * Faulty(honest) >= |s|
    requires forall i | 0 <= i < |s| && honest[i] :: s[i].value <= hi
    ensures IsNth(Spoiled(s, honest, hi + 1), |s| / 2, hi + 1)
  {
    SpoiledCount(s, honest, hi);
  }

  /** `v` is the middle of `s`, whose honest values lie in [lo, hi]. */
  ghost predicate MiddleOf(s: seq<Timestamped>, honest: seq<bool>, lo: int, hi: int, v: int) {
    && |s| == |honest|
    && (forall i | 0 <= i < |s| && honest[i] :: lo <= s[i].value <= hi)
    && IsNth(s, |s| / 2, v)
  }

  lemma MinorityHolds(honest: seq<bool>, s: seq<Timestamped>, lo: int, hi: int, v: int)
    requires 2 * Faulty(honest) < |honest| && MiddleOf(s, honest, lo, hi, v)
    ensures lo <= v <= hi
  {
    MedianBetweenHonest(s, honest, lo, hi, v);
  }

  lemma HalfFails(honest: seq<bool>) returns (s: seq<Timestamped>)
    requires 0 < |honest| <= 2 * Faulty(honest)
    ensures MiddleOf(s, honest, 0, 0, 1)
  {
    var zeros := seq(|honest|, _ => Timestamped(0, 0));
    HalfFaultyDecides(zeros, honest, 0);
    s := Spoiled(zeros, honest, 1);
  }

  /** The threshold: the middle value is sure to lie between honest ones exactly when fewer than
      half of the places are faulty. */
  lemma MinorityIff(honest: seq<bool>)
    requires |honest| > 0
    ensures 2 * Faulty(honest) < |honest| <==>
      forall s, lo, hi, v | MiddleOf(s, honest, lo, hi, v) :: lo <= v <= hi
  {
    hide MiddleOf, Faulty;
    if 2 * Faulty(honest) < |honest| {
      forall s, lo, hi, v | MiddleOf(s, honest, lo, hi, v) ensures lo <= v <= hi {
        MinorityHolds(honest, s, lo, hi, v);
      }
    } else {
      var s := HalfFails(honest);
    }
  }

  /** Changing one value, to anything, moves the result by at most one place of the sorted list. */
  lemma OneValueMovesOneRank(s: seq<Timestamped>, sorted: seq<Timestamped>, i: nat, x: Timestamped, k: nat, v: int)
    requires multiset(s) == multiset(sorted) && Sorted(sorted) && i < |s| && k < |sorted|
    requires IsNth(s[i := x], k, v)
    ensures k > 0 ==> sorted[k - 1].value <= v
    ensures k + 1 < |sorted| ==> v <= sorted[k + 1].value
  {
    var s' := s[i := x];
    assert s'[..i] + s'[i + 1..] == s[..i] + s[i + 1..];
    if k > 0 && v < sorted[k - 1].value {
      var low := sorted[k - 1].value;
      NthOfSorted(s, sorted, k - 1, low);
      CountMonotone(s', v, low);
      CountWithout(s, i, low, false);
      CountWithout(s', i, low, false);
    }
    if k + 1 < |sorted| && v > sorted[k + 1].value {
      var high := sorted[k + 1].value;
      NthOfSorted(s, sorted, k + 1, high);
      CountMonotone(s', high, v);
      CountWithout(s, i, high, true);
      CountWithout(s', i, high, true);
    }
  }
}
