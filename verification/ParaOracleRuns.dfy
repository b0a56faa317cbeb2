/** What feeding a list amounts to, and where values come from over every run. */
module ParaOracleRuns {
  import opened Primitives
  import opened Median
  import opened ParaOracle

  // ---------------------------------------------------------------- closed form of a feed

  predicate HasKey(list: seq<(Key, int)>, key: Key) {
    exists i | 0 <= i < |list| :: list[i].0 == key
  }

  /** The value in the last entry for `key`. */
  function LastValue(list: seq<(Key, int)>, key: Key): int
    requires HasKey(list, key)
  {
    var n := |list| - 1;
    if list[n].0 == key then list[n].1 else LastValue(list[..n], key)
  }

  /** The raw values for `key`, and for no other key, decide what is combined for it. */
  lemma CombinedDependsOnKey(cfg: Config, now: nat, raw: RawValues, raw': RawValues, key: Key, prev: Option<int>)
    requires forall p: (Creator, Key) | p.1 == key :: (p in raw <==> p in raw') && (p in raw ==> raw[p] == raw'[p])
    ensures Combined(cfg, now, raw, key, prev) == Combined(cfg, now, raw', key, prev)
  {
    var entries, entries' := FreshFor(cfg, now, raw, key), FreshFor(cfg, now, raw', key);
    assert entries == entries';
    forall v, orEqual ensures Under(raw, entries, v, orEqual) == Under(raw', entries', v, orEqual) {
    }
    assert forall v :: IsMedian(cfg, now, raw, key, v) <==> IsMedian(cfg, now, raw', key, v);
    if Enough(cfg, now, raw, key) {
      MedianIsUnique(cfg, now, raw, key,
                     Combined(cfg, now, raw, key, prev).value, Combined(cfg, now, raw', key, prev).value);
    }
  }

  /** Overwriting one feeder's value with another of the same time leaves the same entries
      unexpired, so an earlier result for the key leaves no trace in a later one. */
  lemma Refeed(
    cfg: Config, now: nat, raw: RawValues, cid: Creator, key: Key, previous: int, value: int, prev: Option<int>)
    requires (cid, key) in raw && raw[(cid, key)] == Timestamped(previous, now)
    ensures var raw' := raw[(cid, key) := Timestamped(value, now)];
      Combined(cfg, now, raw', key, Combined(cfg, now, raw, key, prev)) == Combined(cfg, now, raw', key, prev)
  {
    var raw' := raw[(cid, key) := Timestamped(value, now)];
    assert FreshFor(cfg, now, raw, key) == FreshFor(cfg, now, raw', key);
  }

  /** The feeder's raw value for each fed key is the last one fed; no other raw value changes. */
  ghost predicate FedRaw(now: nat, cid: Creator, raw: RawValues, list: seq<(Key, int)>, raw': RawValues) {
    && (forall c, k :: (c, k) in raw' <==> (c, k) in raw || (c == cid && HasKey(list, k)))
    && (forall c, k | (c, k) in raw' ::
          raw'[(c, k)] == if c == cid && HasKey(list, k) then Timestamped(LastValue(list, k), now) else raw[(c, k)])
  }

  /** `s'` is what feeding `list` makes of `s`: the combined value of a fed key is what its raw
      values, all of them, now combine to; keys that were not fed are untouched. */
  ghost predicate FedInto(cfg: Config, now: nat, cid: Creator, s: Feeds, list: seq<(Key, int)>, s': Feeds) {
    && FedRaw(now, cid, s.raw, list, s'.raw)
    && (forall k :: Lookup(s'.view, k) ==
          if HasKey(list, k) then Combined(cfg, now, s'.raw, k, Lookup(s.view, k)) else Lookup(s.view, k))
  }

  lemma HasKeyStep(list: seq<(Key, int)>, key: Key)
    requires list != []
    ensures HasKey(list, key) <==> HasKey(list[..|list| - 1], key) || list[|list| - 1].0 == key
  {
    var n := |list| - 1;
    if HasKey(list, key) && list[n].0 != key {
      var i :| 0 <= i < |list| && list[i].0 == key;
      assert list[..n][i].0 == key;
    }
    if HasKey(list[..n], key) {
      var i :| 0 <= i < n && list[..n][i].0 == key;
      assert list[i].0 == key;
    }
  }

  lemma FeedOneView(cfg: Config, now: nat, cid: Creator, s: Feeds, key: Key, value: int, k: Key)
    ensures var s' := FeedOne(cfg, now, cid, s, key, value);
      Lookup(s'.view, k) == if k == key then Combined(cfg, now, s'.raw, key, Lookup(s.view, key)) else Lookup(s.view, k)
  {
    var s' := FeedOne(cfg, now, cid, s, key, value);
    if k == key && Combined(cfg, now, s'.raw, key, Lookup(s.view, key)).None? {
      assert Lookup(s.view, key).None?;
    }
  }

  lemma FeedOneIsFedInto(cfg: Config, now: nat, cid: Creator, s: Feeds, list: seq<(Key, int)>, s1: Feeds, k: Key)
    requires list != [] && FedInto(cfg, now, cid, s, list[..|list| - 1], s1)
    ensures var n := |list| - 1;
      var s2 := FeedOne(cfg, now, cid, s1, list[n].0, list[n].1);
      Lookup(s2.view, k) ==
        if HasKey(list, k) then Combined(cfg, now, s2.raw, k, Lookup(s.view, k)) else Lookup(s.view, k)
  {
    hide Combined;
    var n := |list| - 1;
    var (key, value) := list[n];
    var s2 := FeedOne(cfg, now, cid, s1, key, value);
    HasKeyStep(list, k);
    FeedOneView(cfg, now, cid, s1, key, value, k);
    if k != key {
      CombinedDependsOnKey(cfg, now, s1.raw, s2.raw, k, Lookup(s.view, k));
    } else if HasKey(list[..n], key) {
      Refeed(cfg, now, s1.raw, cid, key, LastValue(list[..n], key), value, Lookup(s.view, key));
    }
  }

  lemma FedRawStep(now: nat, cid: Creator, raw: RawValues, list: seq<(Key, int)>, raw1: RawValues)
    requires list != [] && FedRaw(now, cid, raw, list[..|list| - 1], raw1)
    ensures var n := |list| - 1;
      FedRaw(now, cid, raw, list, raw1[(cid, list[n].0) := Timestamped(list[n].1, now)])
  {
    hide HasKey;
    var n := |list| - 1;
    forall k ensures HasKey(list, k) <==> HasKey(list[..n], k) || list[n].0 == k {
      HasKeyStep(list, k);
    }
  }

  lemma FeedStep(cfg: Config, now: nat, cid: Creator, s: Feeds, list: seq<(Key, int)>, s1: Feeds)
    requires list != [] && FedInto(cfg, now, cid, s, list[..|list| - 1], s1)
    ensures FedInto(cfg, now, cid, s, list, FeedOne(cfg, now, cid, s1, list[|list| - 1].0, list[|list| - 1].1))
  {
    hide Combined, HasKey, FedRaw;
    var n := |list| - 1;
    var s2 := FeedOne(cfg, now, cid, s1, list[n].0, list[n].1);
    FedRawStep(now, cid, s.raw, list, s1.raw);
    forall k
      ensures Lookup(s2.view, k) ==
        if HasKey(list, k) then Combined(cfg, now, s2.raw, k, Lookup(s.view, k)) else Lookup(s.view, k)
    {
      FeedOneIsFedInto(cfg, now, cid, s, list, s1, k);
    }
  }

  lemma {:induction false} FeedAllIsFedInto(cfg: Config, now: nat, cid: Creator, s: Feeds, list: seq<(Key, int)>)
    ensures FedInto(cfg, now, cid, s, list, FeedAll(cfg, now, cid, s, list))
  {
    if list != [] {
      hide FeedOne, FedInto;
      var n := |list| - 1;
      FeedAllIsFedInto(cfg, now, cid, s, list[..n]);
      FeedStep(cfg, now, cid, s, list, FeedAll(cfg, now, cid, s, list[..n]));
    }
  }

  /** While fewer than half of the unexpired entries of a key come from faulty feeders, the value
      combined for it lies between values of honest ones. */
  lemma HonestMajorityBounds(
    cfg: Config, now: nat, raw: RawValues, key: Key, prev: Option<int>, faulty: set<Creator>, lo: int, hi: int)
    requires Enough(cfg, now, raw, key)
    requires 2 * |FaultyFor(cfg, now, raw, key, faulty)| < |FreshFor(cfg, now, raw, key)|
    requires forall p | p in FreshFor(cfg, now, raw, key) && p.0 !in faulty :: lo <= raw[p].value <= hi
    ensures lo <= Combined(cfg, now, raw, key, prev).value <= hi
  {
    var entries, bad := FreshFor(cfg, now, raw, key), FaultyFor(cfg, now, raw, key, faulty);
    var v := Combined(cfg, now, raw, key, prev).value;
    if v < lo {
      CardSubset(Under(raw, entries, v, true), bad);
    }
    if v > hi {
      CardSubset(entries - Under(raw, entries, v, false), bad);
    }
  }

  /** A value fed just now counts exactly when the expiry is positive and the sum of `now` and the
      expiry does not pass 2^128; the sum wraps. */
  lemma JustFedCountsIff(cfg: Config, now: nat, raw: RawValues, p: (Creator, Key))
    requires p in raw && raw[p].timestamp == now && now < U128_LIMIT && cfg.combine.expiresIn < U128_LIMIT
    ensures p in FreshFor(cfg, now, raw, p.1) <==> 0 < cfg.combine.expiresIn && now + cfg.combine.expiresIn < U128_LIMIT
  {
    var sum := now + cfg.combine.expiresIn;
    if sum >= U128_LIMIT {
      assert sum % U128_LIMIT == sum - U128_LIMIT;
    }
  }

  /** With a positive expiry and a minimum count of at most 1, every key that was fed has a value. */
  lemma FedKeysHaveValues(cfg: Config, now: nat, cid: Creator, s: Feeds, list: seq<(Key, int)>, key: Key)
    requires HasKey(list, key) && cfg.combine.minimumCount <= 1
    requires 0 < cfg.combine.expiresIn && now + cfg.combine.expiresIn < U128_LIMIT
    ensures key in FeedAll(cfg, now, cid, s, list).view
  {
    hide Combined;
    FeedAllIsFedInto(cfg, now, cid, s, list);
    var s' := FeedAll(cfg, now, cid, s, list);
    JustFedCountsIff(cfg, now, s'.raw, (cid, key));
    CardSubset({(cid, key)}, FreshFor(cfg, now, s'.raw, key));
  }

  function FaultyFor(cfg: Config, now: nat, raw: RawValues, key: Key, faulty: set<Creator>): set<(Creator, Key)> {
    set p | p in FreshFor(cfg, now, raw, key) && p.0 in faulty
  }

  // ---------------------------------------------------------------- the last entry wins

  /** `list` without its entries for `key`. */
  function Without(list: seq<(Key, int)>, key: Key): seq<(Key, int)> {
    if list == [] then []
    else
      var n := |list| - 1;
      Without(list[..n], key) + if list[n].0 == key then [] else [list[n]]
  }

  /** Only the last entry of each key. */
  function LastOnly(list: seq<(Key, int)>): seq<(Key, int)> {
    if list == [] then []
    else
      var n := |list| - 1;
      Without(LastOnly(list[..n]), list[n].0) + [list[n]]
  }

  lemma {:induction false} WithoutIs(list: seq<(Key, int)>, key: Key, k: Key)
    ensures HasKey(Without(list, key), k) <==> HasKey(list, k) && k != key
    ensures HasKey(list, k) && k != key ==> LastValue(Without(list, key), k) == LastValue(list, k)
  {
    if list != [] {
      var n := |list| - 1;
      WithoutIs(list[..n], key, k);
      HasKeyStep(list, k);
      if list[n].0 == key {
        assert Without(list, key) == Without(list[..n], key);
      } else {
        var w := Without(list, key);
        assert w[..|w| - 1] == Without(list[..n], key);
        HasKeyStep(w, k);
      }
    }
  }

  lemma {:induction false} LastOnlyIs(list: seq<(Key, int)>, k: Key)
    ensures HasKey(LastOnly(list), k) <==> HasKey(list, k)
    ensures HasKey(list, k) ==> LastValue(LastOnly(list), k) == LastValue(list, k)
  {
    if list != [] {
      var n := |list| - 1;
      var l := LastOnly(list);
      LastOnlyIs(list[..n], k);
      WithoutIs(LastOnly(list[..n]), list[n].0, k);
      HasKeyStep(list, k);
      assert l[..|l| - 1] == Without(LastOnly(list[..n]), list[n].0);
      HasKeyStep(l, k);
    }
  }

  lemma ViewsEqual(a: map<Key, int>, b: map<Key, int>)
    requires forall k :: Lookup(a, k) == Lookup(b, k)
    ensures a == b
  {
    forall k | k in a ensures k in b && b[k] == a[k] {
      assert Lookup(a, k) == Lookup(b, k);
    }
    forall k | k in b ensures k in a {
      assert Lookup(a, k) == Lookup(b, k);
    }
  }

  lemma RawsEqual(a: RawValues, b: RawValues)
    requires forall c, k :: (c, k) in a <==> (c, k) in b
    requires forall c, k | (c, k) in a && (c, k) in b :: a[(c, k)] == b[(c, k)]
    ensures a == b
  {
    forall p | p in a ensures p in b && a[p] == b[p] {
      assert (p.0, p.1) in a;
    }
    forall p | p in b ensures p in a {
      assert (p.0, p.1) in b;
    }
  }

  /** Two lists with the same keys and the same last values end in the same raw values and, on
      values, the same combined ones. */
  lemma SameLastSameFeed(cfg: Config, now: nat, cid: Creator, s: Feeds, list: seq<(Key, int)>, list': seq<(Key, int)>)
    requires forall k :: HasKey(list, k) <==> HasKey(list', k)
    requires forall k | HasKey(list, k) && HasKey(list', k) :: LastValue(list, k) == LastValue(list', k)
    ensures FeedAll(cfg, now, cid, s, list) == FeedAll(cfg, now, cid, s, list')
  {
    hide Combined, LastValue, HasKey;
    FeedAllIsFedInto(cfg, now, cid, s, list);
    FeedAllIsFedInto(cfg, now, cid, s, list');
    var a, b := FeedAll(cfg, now, cid, s, list), FeedAll(cfg, now, cid, s, list');
    RawsEqual(a.raw, b.raw);
    ViewsEqual(a.view, b.view);
  }

  /** Feeding a list with repeated keys is feeding only the last entry of each key. */
  lemma LastWins(cfg: Config, now: nat, cid: Creator, s: Feeds, list: seq<(Key, int)>)
    ensures FeedAll(cfg, now, cid, s, list) == FeedAll(cfg, now, cid, s, LastOnly(list))
  {
    forall k
      ensures HasKey(LastOnly(list), k) <==> HasKey(list, k)
      ensures HasKey(list, k) ==> LastValue(LastOnly(list), k) == LastValue(list, k)
    {
      LastOnlyIs(list, k);
    }
    SameLastSameFeed(cfg, now, cid, s, list, LastOnly(list));
  }

  // ---------------------------------------------------------------- runs

  datatype Storage = Storage(raw: RawValues, values: Values, dispatched: set<Creator>)

  datatype Event = Feed(cid: Creator, now: nat, list: seq<(Key, int)>) | Finalize

  predicate Accepts(cfg: Config, s: Storage, cid: Creator) {
    cid !in s.dispatched && |s.dispatched| < cfg.maxDispatched
  }

  /** What `FeedData` and `OnFinalize` promise about storage before and after. */
  ghost predicate Step(cfg: Config, s: Storage, e: Event, s': Storage) {
    match e
    case Finalize => s' == s.(dispatched := {})
    case Feed(cid, now, list) =>
      if Accepts(cfg, s, cid) then
        && s'.dispatched == s.dispatched + {cid}
        && Feeds(s'.raw, View(s'.values)) == FeedAll(cfg, now, cid, Feeds(s.raw, View(s.values)), list)
        && AllKnown(s.raw, s.values, cid, list, now, s'.raw, s'.values)
      else s' == s
  }

  /** The states that a run of `events` goes through, from empty storage. */
  ghost predicate IsRun(cfg: Config, states: seq<Storage>, events: seq<Event>) {
    && |states| == |events| + 1
    && states[0] == Storage(map[], map[], {})
    && forall i | 0 <= i < |events| :: Step(cfg, states[i], events[i], states[i + 1])
  }

  /** The calls take exactly the steps that runs are made of. */
  method Perform(pallet: Pallet, e: Event)
    modifies pallet
    ensures Step(pallet.cfg, old(Storage(pallet.rawValues, pallet.values, pallet.dispatched)), e,
                 Storage(pallet.rawValues, pallet.values, pallet.dispatched))
  {
    match e {
      case Finalize => pallet.OnFinalize();
      case Feed(cid, now, list) => var _ := pallet.FeedData(cid, now, list);
    }
  }

  /** Event `j` of the run was accepted and fed `value` for `key` at time `timestamp`. */
  ghost predicate FedBy(cfg: Config, states: seq<Storage>, events: seq<Event>, j: nat, key: Key, x: Timestamped)
    requires |states| == |events| + 1 && j < |events|
  {
    && events[j].Feed?
    && Accepts(cfg, states[j], events[j].cid)
    && (key, x.value) in events[j].list
    && events[j].now == x.timestamp
  }

  lemma {:induction false} RawOrigin(
    cfg: Config, states: seq<Storage>, events: seq<Event>, i: nat, c: Creator, key: Key)
    returns (j: nat)
    requires IsRun(cfg, states, events) && i <= |events| && (c, key) in states[i].raw
    ensures j < i && FedBy(cfg, states, events, j, key, states[i].raw[(c, key)]) && events[j].cid == c
  {
    var s, e, x := states[i - 1], events[i - 1], states[i].raw[(c, key)];
    assert Step(cfg, s, e, states[i]);
    if (c, key) in s.raw && s.raw[(c, key)] == x {
      j := RawOrigin(cfg, states, events, i - 1, c, key);
    } else {
      assert RawKnown(s.raw, e.cid, e.list, e.now, (c, key), x);
      j := i - 1;
    }
  }

  /** Every combined value in storage was fed for its key, with its timestamp, by some creator. */
  lemma {:induction false} ValueOrigin(cfg: Config, states: seq<Storage>, events: seq<Event>, i: nat, key: Key)
    returns (j: nat)
    requires IsRun(cfg, states, events) && i <= |events| && key in states[i].values
    ensures j < i && FedBy(cfg, states, events, j, key, states[i].values[key])
  {
    var s, e, x := states[i - 1], events[i - 1], states[i].values[key];
    assert Step(cfg, s, e, states[i]);
    if key in s.values && s.values[key] == x {
      j := ValueOrigin(cfg, states, events, i - 1, key);
    } else {
      assert Known(s.raw, s.values, e.list, e.now, key, x);
      if (key, x.value) in e.list && x.timestamp == e.now {
        j := i - 1;
      } else {
        var c :| (c, key) in s.raw && s.raw[(c, key)] == x;
        j := RawOrigin(cfg, states, events, i - 1, c, key);
      }
    }
  }

  /** Event `j` of the run is an accepted feed of `key`. */
  predicate FeedsKey(cfg: Config, states: seq<Storage>, events: seq<Event>, j: nat, key: Key)
    requires |states| == |events| + 1 && j < |events|
  {
    events[j].Feed? && Accepts(cfg, states[j], events[j].cid) && HasKey(events[j].list, key)
  }

  ghost predicate SameRaw(raw: RawValues, raw': RawValues, key: Key) {
    forall p: (Creator, Key) | p.1 == key :: (p in raw <==> p in raw') && (p in raw ==> raw[p] == raw'[p])
  }

  /** A step that does not feed `key` changes neither its raw values nor its combined value. */
  lemma KeyUntouched(cfg: Config, states: seq<Storage>, events: seq<Event>, i: nat, key: Key)
    requires IsRun(cfg, states, events) && i < |events| && !FeedsKey(cfg, states, events, i, key)
    ensures SameRaw(states[i].raw, states[i + 1].raw, key)
    ensures Lookup(View(states[i + 1].values), key) == Lookup(View(states[i].values), key)
  {
    var s, s', e := states[i], states[i + 1], events[i];
    assert Step(cfg, s, e, s');
    if e.Feed? && Accepts(cfg, s, e.cid) {
      FeedAllIsFedInto(cfg, e.now, e.cid, Feeds(s.raw, View(s.values)), e.list);
      forall p: (Creator, Key) | p.1 == key
        ensures (p in s.raw <==> p in s'.raw) && (p in s.raw ==> s.raw[p] == s'.raw[p])
      {
        assert p == (p.0, key);
      }
    }
  }

  /** Over every run, the stored value of a key that was ever fed is what its raw values, as they
      are now, combined to at the time of the last accepted feed of that key. */
  lemma {:induction false} CacheAgrees(cfg: Config, states: seq<Storage>, events: seq<Event>, i: nat, key: Key)
    returns (j: nat)
    requires IsRun(cfg, states, events) && i <= |events|
    requires exists k | 0 <= k < i :: FeedsKey(cfg, states, events, k, key)
    ensures j < i && FeedsKey(cfg, states, events, j, key)
    ensures forall k | j < k < i :: !FeedsKey(cfg, states, events, k, key)
    ensures Lookup(View(states[i].values), key)
         == Combined(cfg, events[j].now, states[i].raw, key, Lookup(View(states[j].values), key))
  {
    hide Combined, Step;
    if FeedsKey(cfg, states, events, i - 1, key) {
      j := i - 1;
      JustFed(cfg, states, events, j, key);
    } else {
      j := CacheAgrees(cfg, states, events, i - 1, key);
      KeyUntouched(cfg, states, events, i - 1, key);
      CombinedDependsOnKey(cfg, events[j].now, states[i - 1].raw, states[i].raw, key,
                           Lookup(View(states[j].values), key));
    }
  }

  lemma JustFed(cfg: Config, states: seq<Storage>, events: seq<Event>, j: nat, key: Key)
    requires IsRun(cfg, states, events) && j < |events| && FeedsKey(cfg, states, events, j, key)
    ensures Lookup(View(states[j + 1].values), key)
         == Combined(cfg, events[j].now, states[j + 1].raw, key, Lookup(View(states[j].values), key))
  {
    hide Combined, FeedAll;
    var s, e := states[j], events[j];
    assert Step(cfg, s, e, states[j + 1]);
    FeedAllIsFedInto(cfg, e.now, e.cid, Feeds(s.raw, View(s.values)), e.list);
  }

  lemma {:induction false} StaysDispatched(
    cfg: Config, states: seq<Storage>, events: seq<Event>, i: nat, k: nat, c: Creator)
    requires IsRun(cfg, states, events) && i <= k <= |events|
    requires c in states[i].dispatched
    requires forall m | i <= m < k :: events[m].Feed?
    ensures c in states[k].dispatched
    decreases k - i
  {
    if i < k {
      assert Step(cfg, states[i], events[i], states[i + 1]);
      StaysDispatched(cfg, states, events, i + 1, k, c);
    }
  }

  /** Between two finalizations each creator has at most one accepted feed: a second one changes
      nothing. */
  lemma OneFeedPerBlock(cfg: Config, states: seq<Storage>, events: seq<Event>, i: nat, k: nat)
    requires IsRun(cfg, states, events) && i < k < |events|
    requires forall m | i <= m <= k :: events[m].Feed?
    requires events[i].cid == events[k].cid && Accepts(cfg, states[i], events[i].cid)
    ensures !Accepts(cfg, states[k], events[k].cid) && states[k + 1] == states[k]
  {
    assert Step(cfg, states[i], events[i], states[i + 1]);
    StaysDispatched(cfg, states, events, i + 1, k, events[i].cid);
    assert Step(cfg, states[k], events[k], states[k + 1]);
  }

  /** The clock of the run stays more than an expiry below 2^128. */
  ghost predicate ClockFits(cfg: Config, events: seq<Event>) {
    forall m | 0 <= m < |events| && events[m].Feed? :: events[m].now + cfg.combine.expiresIn < U128_LIMIT
  }

  lemma RunNoWrap(cfg: Config, states: seq<Storage>, events: seq<Event>, i: nat)
    requires IsRun(cfg, states, events) && i <= |events| && ClockFits(cfg, events)
    ensures NoWrap(cfg, states[i].raw)
  {
    forall p | p in states[i].raw ensures states[i].raw[p].timestamp + cfg.combine.expiresIn < U128_LIMIT {
      assert p == (p.0, p.1);
      var j := RawOrigin(cfg, states, events, i, p.0, p.1);
    }
  }

  /** Over every run, expired raw values have no influence: the stored value of a key is the middle
      of the raw values whose age was below the expiry at the key's last accepted feed. */
  lemma StoredIsMiddleOfLive(cfg: Config, states: seq<Storage>, events: seq<Event>, i: nat, key: Key)
    returns (j: nat)
    requires IsRun(cfg, states, events) && i <= |events| && ClockFits(cfg, events)
    requires exists k | 0 <= k < i :: FeedsKey(cfg, states, events, k, key)
    ensures j < i && FeedsKey(cfg, states, events, j, key)
    ensures forall k | j < k < i :: !FeedsKey(cfg, states, events, k, key)
    ensures MiddleOfLive(cfg, events[j].now, states[i].raw, key,
                         Lookup(View(states[j].values), key), Lookup(View(states[i].values), key))
  {
    hide Step, MiddleOfLive, Combined;
    j := CacheAgrees(cfg, states, events, i, key);
    RunNoWrap(cfg, states, events, i);
    CombinesLive(cfg, events[j].now, states[i].raw, key, Lookup(View(states[j].values), key));
  }
}
