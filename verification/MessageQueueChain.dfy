/** Message queue chains: one hash that stands for a whole sequence of messages, and the heads
    that the mocked inherent data computes for every channel. */
module MessageQueueChain {
  import opened Primitives

  /** Hashes are only compared; the zero hash is the head of an empty chain. */
  type Hash = nat

  const ZERO: Hash := 0

  type ParaId = nat

  datatype Message = Message(sentAt: nat, data: Bytes)

  /** The two uses of the hash function: of a message body, and of a link of the chain. */
  datatype Hasher = Hasher(body: Bytes -> Hash, link: (Hash, nat, Hash) -> Hash)
  {
    /** No collisions. */
    ghost predicate Injective() {
      && (forall d, d' | body(d) == body(d') :: d == d')
      && (forall h, t, b, h', t', b' | link(h, t, b) == link(h', t', b') :: h == h' && t == t' && b == b')
    }

    /** No link hashes to the zero hash. */
    ghost predicate AvoidsZero() {
      forall h, t, b :: link(h, t, b) != ZERO
    }
  }

  function Extended(hasher: Hasher, head: Hash, m: Message): Hash {
    hasher.link(head, m.sentAt, hasher.body(m.data))
  }

  /** The head after a list of messages. */
  function Fold(hasher: Hasher, head: Hash, messages: seq<Message>): Hash {
    if messages == [] then head
    else Extended(hasher, Fold(hasher, head, messages[..|messages| - 1]), messages[|messages| - 1])
  }

  class Chain {
    const hasher: Hasher
    var head: Hash

    constructor (hasher: Hasher, head: Hash)
      ensures this.hasher == hasher && this.head == head
    {
      this.hasher, this.head := hasher, head;
    }

    method ExtendHrmp(m: Message)
      modifies this
      ensures head == hasher.link(old(head), m.sentAt, hasher.body(m.data))
    {
      var prevHead := head;
      head := hasher.link(prevHead, m.sentAt, hasher.body(m.data));
    }

    method ExtendDownward(m: Message)
      modifies this
      ensures head == hasher.link(old(head), m.sentAt, hasher.body(m.data))
    {
      var prevHead := head;
      head := hasher.link(prevHead, m.sentAt, hasher.body(m.data));
    }

    method ExtendAll(messages: seq<Message>)
      modifies this
      ensures head == Fold(hasher, old(head), messages)
    {
      for i := 0 to |messages|
        invariant head == Fold(hasher, old(head), messages[..i])
      {
        PrefixStep(messages, i);
        ExtendHrmp(messages[i]);
      }
      assert messages[..|messages|] == messages;
    }

    function Head(): Hash
      reads this
    {
      head
    }
  }

  // ---------------------------------------------------------------- faithfulness

  /** Equal heads: the shorter list is the end of the longer one, and its chain started where the
      longer one stood before that end. */
  lemma {:induction false} EqualHeads(hasher: Hasher, head: Hash, ms: seq<Message>, head': Hash, ms': seq<Message>)
    requires hasher.Injective() && |ms| <= |ms'|
    requires Fold(hasher, head, ms) == Fold(hasher, head', ms')
    ensures ms == ms'[|ms'| - |ms|..]
    ensures head == Fold(hasher, head', ms'[..|ms'| - |ms|])
  {
    if ms == [] {
      assert ms'[..|ms'|] == ms';
    } else {
      var n, n' := |ms| - 1, |ms'| - 1;
      LinkEqual(hasher, Fold(hasher, head, ms[..n]), ms[n], Fold(hasher, head', ms'[..n']), ms'[n']);
      EqualHeads(hasher, head, ms[..n], head', ms'[..n']);
      SuffixStep(ms, ms');
    }
  }

  lemma LinkEqual(hasher: Hasher, head: Hash, m: Message, head': Hash, m': Message)
    requires hasher.Injective() && Extended(hasher, head, m) == Extended(hasher, head', m')
    ensures head == head' && m == m'
  {
  }

  lemma SuffixStep(ms: seq<Message>, ms': seq<Message>)
    requires 0 < |ms| <= |ms'| && ms[|ms| - 1] == ms'[|ms'| - 1]
    requires ms[..|ms| - 1] == ms'[..|ms'| - 1][|ms'| - |ms|..]
    ensures ms == ms'[|ms'| - |ms|..]
    ensures ms'[..|ms'| - 1][..|ms'| - |ms|] == ms'[..|ms'| - |ms|]
  {
    assert ms == ms[..|ms| - 1] + [ms[|ms| - 1]];
    assert ms' == ms'[..|ms'| - 1] + [ms'[|ms'| - 1]];
  }

  /** Lists of one length have equal heads exactly when they and their starting heads are equal. */
  lemma {:induction false} SameLengthSameHeads(
    hasher: Hasher, head: Hash, ms: seq<Message>, head': Hash, ms': seq<Message>)
    requires hasher.Injective() && |ms| == |ms'|
    ensures Fold(hasher, head, ms) == Fold(hasher, head', ms') <==> head == head' && ms == ms'
  {
    if Fold(hasher, head, ms) == Fold(hasher, head', ms') {
      EqualHeads(hasher, head, ms, head', ms');
      assert ms'[0..] == ms' && ms'[..0] == [];
    }
  }

  /** Chains that both start empty have equal heads exactly when they hold the same messages,
      whatever their lengths. */
  lemma {:induction false} FromEmptyIffSame(hasher: Hasher, ms: seq<Message>, ms': seq<Message>)
    requires hasher.Injective() && hasher.AvoidsZero()
    ensures Fold(hasher, ZERO, ms) == Fold(hasher, ZERO, ms') <==> ms == ms'
  {
    if Fold(hasher, ZERO, ms) == Fold(hasher, ZERO, ms') {
      if |ms| <= |ms'| {
        EqualHeads(hasher, ZERO, ms, ZERO, ms');
      } else {
        EqualHeads(hasher, ZERO, ms', ZERO, ms);
      }
      SameLengthSameHeads(hasher, ZERO, ms, ZERO, ms');
    }
  }

  /** Extending chain by chain is extending by the concatenation. */
  lemma {:induction false} FoldAppend(hasher: Hasher, head: Hash, ms: seq<Message>, ms': seq<Message>)
    ensures Fold(hasher, head, ms + ms') == Fold(hasher, Fold(hasher, head, ms), ms')
  {
    if ms' == [] {
      assert ms + ms' == ms;
    } else {
      var n := |ms'| - 1;
      assert (ms + ms')[..|ms| + n] == ms + ms'[..n];
      FoldAppend(hasher, head, ms, ms'[..n]);
    }
  }

  // ---------------------------------------------------------------- mocked inherent data

  /** The messages of one channel, in arrival order. */
  function Channel(raw: seq<(ParaId, Bytes)>, id: ParaId, sentAt: nat): seq<Message> {
    if raw == [] then []
    else
      var n := |raw| - 1;
      Channel(raw[..n], id, sentAt) + if raw[n].0 == id then [Message(sentAt, raw[n].1)] else []
  }

  /** `at` lists, in order, the places in `raw` of the messages of channel `id`, and `ms` are these
      messages with the block number. */
  ghost predicate Places(raw: seq<(ParaId, Bytes)>, id: ParaId, sentAt: nat, at: seq<nat>, ms: seq<Message>) {
    && |at| == |ms|
    && (forall k | 0 <= k < |at| :: at[k] < |raw| && raw[at[k]].0 == id && ms[k] == Message(sentAt, raw[at[k]].1))
    && (forall k, l | 0 <= k < l < |at| :: at[k] < at[l])
    && (forall i: nat | i < |raw| && raw[i].0 == id :: i in at)
  }

  lemma PlacesStep(raw: seq<(ParaId, Bytes)>, id: ParaId, sentAt: nat, at: seq<nat>, ms: seq<Message>)
    requires raw != [] && Places(raw[..|raw| - 1], id, sentAt, at, ms)
    ensures var n := |raw| - 1;
      if raw[n].0 == id then Places(raw, id, sentAt, at + [n], ms + [Message(sentAt, raw[n].1)])
      else Places(raw, id, sentAt, at, ms)
  {
    var n := |raw| - 1;
    assert forall k | 0 <= k < |at| :: raw[..n][at[k]] == raw[at[k]];
    forall i: nat | i < n && raw[i].0 == id ensures i in at {
      assert raw[..n][i] == raw[i];
    }
    assert raw[n].0 == id ==> n in at + [n];
  }

  /** Which message of a channel is which: the k-th is the k-th among the raw ones that names it. */
  lemma {:induction false} ChannelPlaces(raw: seq<(ParaId, Bytes)>, id: ParaId, sentAt: nat) returns (at: seq<nat>)
    ensures Places(raw, id, sentAt, at, Channel(raw, id, sentAt))
  {
    at := [];
    if raw != [] {
      hide Places;
      var n := |raw| - 1;
      at := ChannelPlaces(raw[..n], id, sentAt);
      PlacesStep(raw, id, sentAt, at, Channel(raw[..n], id, sentAt));
      if raw[n].0 == id {
        at := at + [n];
      } else {
        assert Channel(raw, id, sentAt) == Channel(raw[..n], id, sentAt);
      }
    }
  }

  /** Downward messages are wrapped and chained one by one. */
  method ProvideDownward(hasher: Hasher, sentAt: nat, raw: seq<Bytes>, start: Hash)
    returns (messages: seq<Message>, head: Hash)
    ensures |messages| == |raw| && forall i | 0 <= i < |raw| :: messages[i] == Message(sentAt, raw[i])
    ensures head == Fold(hasher, start, messages)
  {
    messages := [];
    var chain := new Chain(hasher, start);
    for i := 0 to |raw|
      invariant fresh(chain) && chain.hasher == hasher
      invariant |messages| == i && forall k | 0 <= k < i :: messages[k] == Message(sentAt, raw[k])
      invariant chain.head == Fold(hasher, start, messages)
    {
      var wrapped := Message(sentAt, raw[i]);
      chain.ExtendDownward(wrapped);
      assert (messages + [wrapped])[..|messages|] == messages;
      messages := messages + [wrapped];
    }
    head := chain.Head();
  }

  /** Messages are collected into a map by channel; then each channel's chain is extended from its
      own starting head. */
  method ProvideHorizontal(hasher: Hasher, sentAt: nat, raw: seq<(ParaId, Bytes)>, starting: map<ParaId, Hash>)
    returns (messages: map<ParaId, seq<Message>>, heads: map<ParaId, Hash>)
    ensures heads.Keys == messages.Keys
    ensures forall id :: id in messages <==> Channel(raw, id, sentAt) != []
    ensures forall id | id in messages ::
      && messages[id] == Channel(raw, id, sentAt)
      && heads[id] == Fold(hasher, if id in starting then starting[id] else ZERO, messages[id])
  {
    messages := GroupByChannel(sentAt, raw);
    heads := map[];
    var todo := messages.Keys;
    while todo != {}
      invariant todo <= messages.Keys && heads.Keys == messages.Keys - todo
      invariant forall id | id in heads ::
        heads[id] == Fold(hasher, if id in starting then starting[id] else ZERO, messages[id])
      decreases todo
    {
      var id :| id in todo;
      var chain := new Chain(hasher, if id in starting then starting[id] else ZERO);
      chain.ExtendAll(messages[id]);
      heads := heads[id := chain.Head()];
      todo := todo - {id};
    }
  }

  method GroupByChannel(sentAt: nat, raw: seq<(ParaId, Bytes)>) returns (messages: map<ParaId, seq<Message>>)
    ensures forall id :: id in messages <==> Channel(raw, id, sentAt) != []
    ensures forall id | id in messages :: messages[id] == Channel(raw, id, sentAt)
  {
    messages := map[];
    for k := 0 to |raw|
      invariant forall id :: id in messages <==> Channel(raw[..k], id, sentAt) != []
      invariant forall id | id in messages :: messages[id] == Channel(raw[..k], id, sentAt)
    {
      PrefixStep(raw, k);
      var (id, data) := raw[k];
      var entry := if id in messages then messages[id] else [];
      messages := messages[id := entry + [Message(sentAt, data)]];
    }
    assert raw[..|raw|] == raw;
  }

  /** `raw` is `a` and `b` merged in some way that keeps the order within each. */
  predicate Interleaves(raw: seq<(ParaId, Bytes)>, a: seq<(ParaId, Bytes)>, b: seq<(ParaId, Bytes)>) {
    if raw == [] then a == [] && b == []
    else
      var n := |raw| - 1;
      || (a != [] && a[|a| - 1] == raw[n] && Interleaves(raw[..n], a[..|a| - 1], b))
      || (b != [] && b[|b| - 1] == raw[n] && Interleaves(raw[..n], a, b[..|b| - 1]))
  }

  lemma {:induction false} InterleavedChannel(
    raw: seq<(ParaId, Bytes)>, a: seq<(ParaId, Bytes)>, b: seq<(ParaId, Bytes)>, id: ParaId, sentAt: nat)
    requires Interleaves(raw, a, b) && forall m | m in b :: m.0 != id
    ensures Channel(raw, id, sentAt) == Channel(a, id, sentAt)
  {
    if raw != [] {
      var n := |raw| - 1;
      if a != [] && a[|a| - 1] == raw[n] && Interleaves(raw[..n], a[..|a| - 1], b) {
        InterleavedChannel(raw[..n], a[..|a| - 1], b, id, sentAt);
      } else {
        assert b[|b| - 1] in b;
        InterleavedChannel(raw[..n], a, b[..|b| - 1], id, sentAt);
      }
    }
  }

  /** A channel's messages, and so its head, do not depend on which messages of other channels there
      are nor on how they are interleaved with its own. */
  lemma OtherChannelsIrrelevant(
    raw: seq<(ParaId, Bytes)>, raw': seq<(ParaId, Bytes)>, own: seq<(ParaId, Bytes)>,
    others: seq<(ParaId, Bytes)>, others': seq<(ParaId, Bytes)>, id: ParaId, sentAt: nat)
    requires Interleaves(raw, own, others) && Interleaves(raw', own, others')
    requires (forall m | m in others :: m.0 != id) && (forall m | m in others' :: m.0 != id)
    ensures Channel(raw, id, sentAt) == Channel(raw', id, sentAt)
  {
    InterleavedChannel(raw, own, others, id, sentAt);
    InterleavedChannel(raw', own, others', id, sentAt);
  }
}
