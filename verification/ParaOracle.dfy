/** The price oracle: raw values per feeder and key, and a combined value per key that is kept up
    to date while a list of values is fed. */
module ParaOracle {
  import opened Primitives
  import opened Median

  datatype Creator = AccountId(account: Account) | ParaId(para: nat)

  type Key = Bytes

  type RawValues = map<(Creator, Key), Timestamped>

  type Values = map<Key, Timestamped>

  datatype Config = Config(combine: Settings, maxDispatched: nat)

  // ---------------------------------------------------------------- what is combined

  /** The entries of `raw` for `key` that have not expired. */
  function FreshFor(cfg: Config, now: nat, raw: RawValues, key: Key): set<(Creator, Key)> {
    set p | p in raw && p.1 == key && Fresh(cfg.combine, now, raw[p])
  }

  /** Those of `entries` whose value is below `v`, or at most `v`. */
  function Under(raw: RawValues, entries: set<(Creator, Key)>, v: int, orEqual: bool): set<(Creator, Key)>
    requires entries <= raw.Keys
  {
    set p | p in entries && Hit(raw[p], v, orEqual)
  }

  ghost predicate Enough(cfg: Config, now: nat, raw: RawValues, key: Key) {
    |FreshFor(cfg, now, raw, key)| >= Max(1, cfg.combine.minimumCount)
  }

  /** `v` is the middle of the unexpired raw values for `key`: a statement about sets, in which no
      order of enumeration appears. */
  ghost predicate IsMedian(cfg: Config, now: nat, raw: RawValues, key: Key, v: int) {
    var entries := FreshFor(cfg, now, raw, key);
    |Under(raw, entries, v, false)| <= |entries| / 2 < |Under(raw, entries, v, true)|
  }

  /** The combined value, `prev` when there are not enough unexpired values. */
  ghost function Combined(cfg: Config, now: nat, raw: RawValues, key: Key, prev: Option<int>): (r: Option<int>)
    ensures Enough(cfg, now, raw, key) ==> r.Some? && IsMedian(cfg, now, raw, key, r.value)
  {
    if Enough(cfg, now, raw, key) then
      MedianExists(cfg, now, raw, key);
      var v :| IsMedian(cfg, now, raw, key, v);
      Some(v)
    else prev
  }

  /** The entries of `raw` for `key` whose age is below the expiry. */
  function LiveFor(cfg: Config, now: nat, raw: RawValues, key: Key): set<(Creator, Key)> {
    set p | p in raw && p.1 == key && now < raw[p].timestamp + cfg.combine.expiresIn
  }

  /** No sum of a timestamp and the expiry passes 2^128. */
  ghost predicate NoWrap(cfg: Config, raw: RawValues) {
    forall p | p in raw :: raw[p].timestamp + cfg.combine.expiresIn < U128_LIMIT
  }

  /** For entries of every age: what counts is what has not expired. */
  lemma FreshForIsLive(cfg: Config, now: nat, raw: RawValues, key: Key)
    requires NoWrap(cfg, raw)
    ensures FreshFor(cfg, now, raw, key) == LiveFor(cfg, now, raw, key)
  {
    forall p | p in raw
      ensures Fresh(cfg.combine, now, raw[p]) <==> now < raw[p].timestamp + cfg.combine.expiresIn
    {
      FreshIff(cfg.combine, now, raw[p]);
    }
  }

  /** `r` is the middle of the live values for `key`, or `prev` if they are too few. */
  ghost predicate MiddleOfLive(
    cfg: Config, now: nat, raw: RawValues, key: Key, prev: Option<int>, r: Option<int>)
  {
    var live := LiveFor(cfg, now, raw, key);
    if |live| < cfg.combine.minimumCount || live == {} then r == prev
    else
      && r.Some?
      && |Under(raw, live, r.value, false)| <= |live| / 2 < |Under(raw, live, r.value, true)|
  }

  function ValueOf(r: Option<Timestamped>): Option<int> {
    match r case Some(x) => Some(x.value) case None => None
  }

  lemma MedianOfLive(cfg: Config, now: nat, raw: RawValues, key: Key, prev: Option<int>, r: Option<int>)
    requires NoWrap(cfg, raw)
    requires if Enough(cfg, now, raw, key) then r.Some? && IsMedian(cfg, now, raw, key, r.value) else r == prev
    ensures MiddleOfLive(cfg, now, raw, key, prev, r)
  {
    FreshForIsLive(cfg, now, raw, key);
  }

  lemma CombinesLive(cfg: Config, now: nat, raw: RawValues, key: Key, prev: Option<int>)
    requires NoWrap(cfg, raw)
    ensures MiddleOfLive(cfg, now, raw, key, prev, Combined(cfg, now, raw, key, prev))
  {
    MedianOfLive(cfg, now, raw, key, prev, Combined(cfg, now, raw, key, prev));
  }

  /** Entries that have expired have no influence: `raw` and `raw'` may differ in them in any way. */
  lemma ExpiredIrrelevant(cfg: Config, now: nat, raw: RawValues, raw': RawValues, key: Key, prev: Option<int>)
    requires NoWrap(cfg, raw) && NoWrap(cfg, raw')
    requires LiveFor(cfg, now, raw, key) == LiveFor(cfg, now, raw', key)
    requires forall p | p in LiveFor(cfg, now, raw, key) :: raw[p].value == raw'[p].value
    ensures Combined(cfg, now, raw, key, prev) == Combined(cfg, now, raw', key, prev)
  {
    var live := LiveFor(cfg, now, raw, key);
    FreshForIsLive(cfg, now, raw, key);
    FreshForIsLive(cfg, now, raw', key);
    assert forall v, orEqual :: Under(raw, live, v, orEqual) == Under(raw', live, v, orEqual);
    if Enough(cfg, now, raw, key) {
      MedianIsUnique(cfg, now, raw', key,
                     Combined(cfg, now, raw, key, prev).value, Combined(cfg, now, raw', key, prev).value);
    }
  }

  /** An entry with the largest value. */
  lemma {:induction false} Largest(raw: RawValues, entries: set<(Creator, Key)>) returns (p: (Creator, Key))
    requires entries <= raw.Keys && entries != {}
    ensures p in entries && forall q | q in entries :: raw[q].value <= raw[p].value
    decreases |entries|
  {
    var first :| first in entries;
    var rest := entries - {first};
    p := first;
    if rest != {} {
      var q := Largest(raw, rest);
      if raw[first].value < raw[q].value {
        p := q;
      }
    }
    forall q | q in entries ensures raw[q].value <= raw[p].value {
      assert q == first || q in rest;
    }
  }

  /** Walks down from a value with too many entries below it to one of rank `k`. */
  lemma {:induction false} RankExists(raw: RawValues, entries: set<(Creator, Key)>, k: nat, v: int)
    requires entries <= raw.Keys && k < |Under(raw, entries, v, true)|
    ensures exists w :: |Under(raw, entries, w, false)| <= k < |Under(raw, entries, w, true)|
    decreases |Under(raw, entries, v, false)|
  {
    var below := Under(raw, entries, v, false);
    if k < |below| {
      var p := Largest(raw, below);
      var w := raw[p].value;
      assert Under(raw, entries, w, true) == below;
      assert Under(raw, entries, w, false) <= below - {p};
      CardSubset(Under(raw, entries, w, false), below - {p});
      RankExists(raw, entries, k, w);
    }
  }

  lemma MedianExists(cfg: Config, now: nat, raw: RawValues, key: Key)
    requires Enough(cfg, now, raw, key)
    ensures exists v :: IsMedian(cfg, now, raw, key, v)
  {
    var entries := FreshFor(cfg, now, raw, key);
    var p := Largest(raw, entries);
    assert Under(raw, entries, raw[p].value, true) == entries;
    RankExists(raw, entries, |entries| / 2, raw[p].value);
    var v :| |Under(raw, entries, v, false)| <= |entries| / 2 < |Under(raw, entries, v, true)|;
    assert IsMedian(cfg, now, raw, key, v);
  }

  lemma CardSubset<T>(a: set<T>, b: set<T>)
    requires a <= b
    ensures |a| <= |b|
  {
    assert b == a + (b - a);
  }

  lemma MedianIsUnique(cfg: Config, now: nat, raw: RawValues, key: Key, v: int, v': int)
    requires IsMedian(cfg, now, raw, key, v) && IsMedian(cfg, now, raw, key, v')
    ensures v == v'
  {
    var entries := FreshFor(cfg, now, raw, key);
    if v < v' {
      CardSubset(Under(raw, entries, v, true), Under(raw, entries, v', false));
    } else if v' < v {
      CardSubset(Under(raw, entries, v', true), Under(raw, entries, v, false));
    }
  }

  // ---------------------------------------------------------------- feeding

  /** Raw values and the combined values, the latter without their timestamps. */
  datatype Feeds = Feeds(raw: RawValues, view: map<Key, int>)

  function View(values: Values): map<Key, int> {
    map k | k in values :: values[k].value
  }

  function Lookup(view: map<Key, int>, key: Key): Option<int> {
    if key in view then Some(view[key]) else None
  }

  ghost function FeedOne(cfg: Config, now: nat, cid: Creator, s: Feeds, key: Key, value: int): Feeds {
    var raw := s.raw[(cid, key) := Timestamped(value, now)];
    match Combined(cfg, now, raw, key, Lookup(s.view, key))
    case Some(v) => Feeds(raw, s.view[key := v])
    case None => Feeds(raw, s.view)
  }

  ghost function FeedAll(cfg: Config, now: nat, cid: Creator, s: Feeds, list: seq<(Key, int)>): Feeds {
    if list == [] then s
    else
      var n := |list| - 1;
      FeedOne(cfg, now, cid, FeedAll(cfg, now, cid, s, list[..n]), list[n].0, list[n].1)
  }

  datatype Error = AlreadyFeeded

  /** Where a combined value can come from: it was there, it is an old raw value of the key, or it
      is among what is being fed. */
  ghost predicate Known(raw: RawValues, values: Values, list: seq<(Key, int)>, now: nat, key: Key, x: Timestamped) {
    || (key in values && values[key] == x)
    || (exists c :: (c, key) in raw && raw[(c, key)] == x)
    || ((key, x.value) in list && x.timestamp == now)
  }

  /** Where a raw value can come from. */
  ghost predicate RawKnown(
    raw: RawValues, cid: Creator, list: seq<(Key, int)>, now: nat, p: (Creator, Key), x: Timestamped)
  {
    || (p in raw && raw[p] == x)
    || (p.0 == cid && (p.1, x.value) in list && x.timestamp == now)
  }

  /** Nothing in (`raw'`, `values'`) comes from nowhere. */
  ghost predicate AllKnown(raw: RawValues, values: Values, cid: Creator, list: seq<(Key, int)>, now: nat,
                           raw': RawValues, values': Values)
  {
    && (forall k | k in values' :: Known(raw, values, list, now, k, values'[k]))
    && (forall p | p in raw' :: RawKnown(raw, cid, list, now, p, raw'[p]))
  }

  lemma StillKnown(raw: RawValues, values: Values, cid: Creator, list: seq<(Key, int)>, now: nat, i: nat,
                   raw1: RawValues, values1: Values, raw2: RawValues, values2: Values)
    requires i < |list| && AllKnown(raw, values, cid, list, now, raw1, values1)
    requires raw2 == raw1[(cid, list[i].0) := Timestamped(list[i].1, now)]
    requires values2 == values1
      || (exists c :: (c, list[i].0) in raw2 && values2 == values1[list[i].0 := raw2[(c, list[i].0)]])
      || (list[i].0 in values1 && values2 == values1[list[i].0 := values1[list[i].0]])
    ensures AllKnown(raw, values, cid, list, now, raw2, values2)
  {
    var key := list[i].0;
    assert list[i] == (key, list[i].1);
    forall p | p in raw2 ensures RawKnown(raw, cid, list, now, p, raw2[p]) {
      if p != (cid, key) {
        assert RawKnown(raw, cid, list, now, p, raw1[p]);
      }
    }
    if c :| (c, key) in raw2 && values2 == values1[key := raw2[(c, key)]] {
      assert RawKnown(raw, cid, list, now, (c, key), raw2[(c, key)]);
    }
  }

  class Pallet {
    const cfg: Config
    var rawValues: RawValues
    var values: Values
    var dispatched: set<Creator>

    constructor (cfg: Config)
      ensures this.cfg == cfg && rawValues == map[] && values == map[] && dispatched == {}
    {
      this.cfg := cfg;
      rawValues, values, dispatched := map[], map[], {};
    }

    ghost function State(): Feeds
      reads this
    {
      Feeds(rawValues, View(values))
    }

    /** Iterates over all raw values, in the storage's own order, and collects those of `key`.
        `entries` names where each collected value was found. */
    method ReadRawValues(key: Key) returns (found: array<Timestamped>, ghost entries: seq<(Creator, Key)>)
      ensures fresh(found)
      ensures Enumerates(rawValues, key, entries) && found[..] == At(rawValues, entries)
    {
      var todo := rawValues.Keys;
      var list: seq<Timestamped> := [];
      entries := [];
      while todo != {}
        invariant todo <= rawValues.Keys
        invariant Enumerated(rawValues, key, entries, rawValues.Keys - todo)
        invariant list == At(rawValues, entries)
        decreases todo
      {
        var p :| p in todo;
        todo := todo - {p};
        if p.1 == key {
          list := list + [rawValues[p]];
          entries := entries + [p];
        }
      }
      found := new Timestamped[|list|](i requires 0 <= i < |list| => list[i]);
      assert found[..] == list;
    }

    method CombinedValue(now: nat, key: Key) returns (r: Option<Timestamped>)
      ensures var prev := if key in values then Some(values[key]) else None;
        if Enough(cfg, now, rawValues, key) then
          && r.Some?
          && IsMedian(cfg, now, rawValues, key, r.value.value)
          && exists c :: (c, key) in rawValues && rawValues[(c, key)] == r.value
        else r == prev
      ensures NoWrap(cfg, rawValues) ==>
        MiddleOfLive(cfg, now, rawValues, key, Lookup(View(values), key), ValueOf(r))
    {
      hide FreshFor, Filter, Count, Under, NoWrap, MiddleOfLive, Live;
      var found, entries := ReadRawValues(key);
      ghost var raw := found[..];
      r := Median.CombineData(cfg.combine, now, found, if key in values then Some(values[key]) else None);
      FreshCount(cfg, now, rawValues, key, entries);
      if Enough(cfg, now, rawValues, key) {
        UnderCount(cfg, now, rawValues, key, entries, r.value.value, false);
        UnderCount(cfg, now, rawValues, key, entries, r.value.value, true);
        FilterSubset(cfg.combine, now, raw);
        var i :| 0 <= i < |raw| && raw[i] == r.value;
        assert rawValues[entries[i]] == r.value && entries[i].1 == key;
        assert entries[i] == (entries[i].0, key);
      }
      if NoWrap(cfg, rawValues) {
        MedianOfLive(cfg, now, rawValues, key, Lookup(View(values), key), ValueOf(r));
      }
    }

    /** One turn of the feeding loop. */
    method FeedEntry(cid: Creator, now: nat, key: Key, value: int)
      modifies this`rawValues, this`values
      ensures State() == FeedOne(cfg, now, cid, old(State()), key, value)
      ensures values == old(values)
        || (exists c :: (c, key) in rawValues && values == old(values)[key := rawValues[(c, key)]])
        || (key in old(values) && values == old(values)[key := old(values)[key]])
    {
      rawValues := rawValues[(cid, key) := Timestamped(value, now)];
      var combined := CombinedValue(now, key);
      CombinedAgrees(cfg, now, rawValues, key, values, combined);
      if combined.Some? {
        values := values[key := combined.value];
      }
    }

    /** `feed_data` and `xcm_feed_data`, which differ only in how the creator is derived. */
    method FeedData(cid: Creator, now: nat, list: seq<(Key, int)>) returns (r: Result<(), Error>)
      modifies this
      ensures r.Ok? <==> cid !in old(dispatched) && |old(dispatched)| < cfg.maxDispatched
      ensures r.Ok? ==> dispatched == old(dispatched) + {cid}
      ensures r.Ok? ==> State() == FeedAll(cfg, now, cid, old(State()), list)
      ensures r.Err? ==> dispatched == old(dispatched) && rawValues == old(rawValues) && values == old(values)
      ensures r.Ok? ==> AllKnown(old(rawValues), old(values), cid, list, now, rawValues, values)
    {
      if cid in dispatched || |dispatched| >= cfg.maxDispatched {
        return Err(AlreadyFeeded);
      }
      dispatched := dispatched + {cid};
      for i := 0 to |list|
        invariant dispatched == old(dispatched) + {cid}
        invariant State() == FeedAll(cfg, now, cid, old(State()), list[..i])
        invariant AllKnown(old(rawValues), old(values), cid, list, now, rawValues, values)
      {
        PrefixStep(list, i);
        ghost var raw, vals := rawValues, values;
        FeedEntry(cid, now, list[i].0, list[i].1);
        StillKnown(old(rawValues), old(values), cid, list, now, i, raw, vals, rawValues, values);
      }
      assert list[..|list|] == list;
      r := Ok(());
    }

    method OnFinalize()
      modifies this`dispatched
      ensures dispatched == {}
    {
      dispatched := {};
    }
  }

  // ---------------------------------------------------------------- enumeration

  function At(raw: RawValues, entries: seq<(Creator, Key)>): (s: seq<Timestamped>)
    requires forall p | p in entries :: p in raw
    ensures |s| == |entries| && forall i | 0 <= i < |s| :: s[i] == raw[entries[i]]
  {
    seq(|entries|, i requires 0 <= i < |entries| => raw[entries[i]])
  }

  /** `entries` lists, without repeats, the members of `among` that are raw values for `key`. */
  ghost predicate Enumerated(raw: RawValues, key: Key, entries: seq<(Creator, Key)>, among: set<(Creator, Key)>) {
    && (forall p | p in entries :: p in raw)
    && (forall i, j | 0 <= i < j < |entries| :: entries[i] != entries[j])
    && (forall p :: p in entries <==> p in among && p in raw && p.1 == key)
  }

  ghost predicate Enumerates(raw: RawValues, key: Key, entries: seq<(Creator, Key)>) {
    Enumerated(raw, key, entries, raw.Keys)
  }

  lemma {:induction false} FilterSubset(cfg: Settings, now: nat, s: seq<Timestamped>)
    ensures forall x | x in Filter(cfg, now, s) :: x in s
  {
    if s != [] {
      FilterSubset(cfg, now, s[..|s| - 1]);
    }
  }

  function FreshIn(cfg: Settings, now: nat, raw: RawValues, entries: seq<(Creator, Key)>): set<(Creator, Key)>
    requires forall p | p in entries :: p in raw
  {
    set p | p in entries && Fresh(cfg, now, raw[p])
  }

  lemma FreshInStep(cfg: Settings, now: nat, raw: RawValues, entries: seq<(Creator, Key)>, p: (Creator, Key))
    requires (forall q | q in entries :: q in raw) && p in raw && p !in entries
    ensures p !in FreshIn(cfg, now, raw, entries)
    ensures FreshIn(cfg, now, raw, entries + [p])
         == FreshIn(cfg, now, raw, entries) + if Fresh(cfg, now, raw[p]) then {p} else {}
  {
  }

  lemma UnderStep(raw: RawValues, a: set<(Creator, Key)>, p: (Creator, Key), v: int, orEqual: bool)
    requires a <= raw.Keys && p in raw && p !in a
    ensures |Under(raw, a + {p}, v, orEqual)| == |Under(raw, a, v, orEqual)| + if Hit(raw[p], v, orEqual) then 1 else 0
  {
    assert Under(raw, a + {p}, v, orEqual) == Under(raw, a, v, orEqual) + if Hit(raw[p], v, orEqual) then {p} else {};
  }

  /** Counting a list without repeats is counting a set. */
  lemma {:induction false} CountIsCard(
    cfg: Settings, now: nat, raw: RawValues, entries: seq<(Creator, Key)>, v: int, orEqual: bool)
    requires forall p | p in entries :: p in raw
    requires forall i, j | 0 <= i < j < |entries| :: entries[i] != entries[j]
    ensures |Filter(cfg, now, At(raw, entries))| == |FreshIn(cfg, now, raw, entries)|
    ensures Count(Filter(cfg, now, At(raw, entries)), v, orEqual)
         == |Under(raw, FreshIn(cfg, now, raw, entries), v, orEqual)|
  {
    if entries == [] {
      EmptyCard(cfg, now, raw, v, orEqual);
    } else {
      var n := |entries| - 1;
      CountIsCard(cfg, now, raw, entries[..n], v, orEqual);
      assert entries == entries[..n] + [entries[n]];
      CountOneMore(cfg, now, raw, entries[..n], entries[n], v, orEqual);
    }
  }

  lemma CountOneMore(
    cfg: Settings, now: nat, raw: RawValues, init: seq<(Creator, Key)>, p: (Creator, Key), v: int, orEqual: bool)
    requires (forall q | q in init :: q in raw) && p in raw && p !in init
    requires |Filter(cfg, now, At(raw, init))| == |FreshIn(cfg, now, raw, init)|
    requires Count(Filter(cfg, now, At(raw, init)), v, orEqual)
          == |Under(raw, FreshIn(cfg, now, raw, init), v, orEqual)|
    ensures |Filter(cfg, now, At(raw, init + [p]))| == |FreshIn(cfg, now, raw, init + [p])|
    ensures Count(Filter(cfg, now, At(raw, init + [p])), v, orEqual)
         == |Under(raw, FreshIn(cfg, now, raw, init + [p]), v, orEqual)|
  {
    hide FreshIn, Under, Count, Filter, Fresh, Hit;
    var a, f := FreshIn(cfg, now, raw, init), Filter(cfg, now, At(raw, init));
    FreshInStep(cfg, now, raw, init, p);
    FreshInKeys(cfg, now, raw, init);
    assert At(raw, init + [p]) == At(raw, init) + [raw[p]];
    FilterAppend(cfg, now, At(raw, init), raw[p]);
    if Fresh(cfg, now, raw[p]) {
      UnderStep(raw, a, p, v, orEqual);
      CountSplit(f, [raw[p]], v, orEqual);
      CountOne(raw[p], v, orEqual);
    } else {
      assert a + {} == a && f + [] == f;
    }
  }

  lemma FilterAppend(cfg: Settings, now: nat, s: seq<Timestamped>, x: Timestamped)
    ensures Filter(cfg, now, s + [x]) == Filter(cfg, now, s) + if Fresh(cfg, now, x) then [x] else []
  {
    assert (s + [x])[..|s|] == s;
  }

  lemma FreshInKeys(cfg: Settings, now: nat, raw: RawValues, entries: seq<(Creator, Key)>)
    requires forall p | p in entries :: p in raw
    ensures FreshIn(cfg, now, raw, entries) <= raw.Keys
  {
  }

  lemma EmptyCard(cfg: Settings, now: nat, raw: RawValues, v: int, orEqual: bool)
    ensures FreshIn(cfg, now, raw, []) == {} && Under(raw, {}, v, orEqual) == {} && Count([], v, orEqual) == 0
  {
  }

  lemma FreshCount(cfg: Config, now: nat, raw: RawValues, key: Key, entries: seq<(Creator, Key)>)
    requires Enumerates(raw, key, entries)
    ensures |Filter(cfg.combine, now, At(raw, entries))| == |FreshFor(cfg, now, raw, key)|
  {
    CountIsCard(cfg.combine, now, raw, entries, 0, false);
    assert FreshFor(cfg, now, raw, key) == FreshIn(cfg.combine, now, raw, entries);
  }

  lemma UnderCount(cfg: Config, now: nat, raw: RawValues, key: Key, entries: seq<(Creator, Key)>, v: int, orEqual: bool)
    requires Enumerates(raw, key, entries)
    ensures Count(Filter(cfg.combine, now, At(raw, entries)), v, orEqual)
         == |Under(raw, FreshFor(cfg, now, raw, key), v, orEqual)|
  {
    CountIsCard(cfg.combine, now, raw, entries, v, orEqual);
    assert FreshFor(cfg, now, raw, key) == FreshIn(cfg.combine, now, raw, entries);
  }

  /** What the code combines is, on values, the one median that the specification names. */
  lemma CombinedAgrees(cfg: Config, now: nat, raw: RawValues, key: Key, values: Values, r: Option<Timestamped>)
    requires if Enough(cfg, now, raw, key) then r.Some? && IsMedian(cfg, now, raw, key, r.value.value)
             else r == if key in values then Some(values[key]) else None
    ensures Combined(cfg, now, raw, key, Lookup(View(values), key))
         == ValueOf(r)
  {
    if Enough(cfg, now, raw, key) {
      MedianIsUnique(cfg, now, raw, key, Combined(cfg, now, raw, key, Lookup(View(values), key)).value, r.value.value);
    }
  }
}
