/** The message queue that the anchor pallet lays out as byte keys inside its key/value store. */
module Queue {
  import opened Primitives
  import opened Storage

  const HEAD: Bytes := [95, 104, 101, 97, 100] // "_head"
  const TAIL: Bytes := [95, 116, 97, 105, 108] // "_tail"

  function QueueKey(cfg: Config, index: Bytes): Key
    requires cfg.Valid() && |index| <= 5
  {
    cfg.prefix + index
  }

  function SlotKey(cfg: Config, i: nat): Key
    requires cfg.Valid() && i < U32_LIMIT
  {
    QueueKey(cfg, EncodeU32(i))
  }

  /** The keys that belong to the queue: a client's updates are expected to stay away from them. */
  predicate IsQueueKey(cfg: Config, key: Key)
    requires cfg.Valid()
  {
    cfg.prefix <= key &&
    (|key| == |cfg.prefix| + 4 || key == QueueKey(cfg, HEAD) || key == QueueKey(cfg, TAIL))
  }

  lemma QueueKeysDistinct(cfg: Config, i: nat, j: nat)
    requires cfg.Valid() && i < U32_LIMIT && j < U32_LIMIT
    ensures SlotKey(cfg, i) == SlotKey(cfg, j) ==> i == j
    ensures SlotKey(cfg, i) != QueueKey(cfg, HEAD) && SlotKey(cfg, i) != QueueKey(cfg, TAIL)
    ensures QueueKey(cfg, HEAD) != QueueKey(cfg, TAIL)
    ensures IsQueueKey(cfg, SlotKey(cfg, i))
  {
    var p := |cfg.prefix|;
    assert SlotKey(cfg, i)[p..] == EncodeU32(i) && SlotKey(cfg, j)[p..] == EncodeU32(j);
    U32RoundTrip(i);
    U32RoundTrip(j);
    assert QueueKey(cfg, HEAD)[p..] == HEAD && QueueKey(cfg, TAIL)[p..] == TAIL;
    assert HEAD[1] != TAIL[1];
  }

  // ---------------------------------------------------------------- operations

  /** A missing entry reads as 0; an entry that does not decode makes the caller panic. */
  function Reading(entry: Option<Value>): (index: Option<nat>)
    ensures index.Some? ==> index.value < U32_LIMIT
  {
    match entry
    case None => Some(0)
    case Some(b) => DecodeU32(b)
  }

  function ReadU32(cfg: Config, st: States, name: H256, index: Bytes): Option<nat>
    requires cfg.Valid() && |index| <= 5
  {
    Reading(Get(st, name, QueueKey(cfg, index)))
  }

  /** The store after `push_message`, and the id it returns. `end + 1` is a `u32` addition. */
  function PushMessage(cfg: Config, c: Chain, name: H256, data: Value): Result<(States, nat), Error>
    requires cfg.Valid()
  {
    if name !in c.submitters then Err(NameNotExist)
    else
      match (ReadU32(cfg, c.states, name, TAIL), ReadU32(cfg, c.states, name, HEAD))
      case (Some(tail), Some(head)) =>
        if SaturatingSub(tail, head) >= cfg.capacity then Err(QueueIsFull)
        else Ok((PushState(cfg, c.states, name, tail, data), tail))
      case _ => Err(Trap)
  }

  function PushState(cfg: Config, st: States, name: H256, tail: nat, data: Value): States
    requires cfg.Valid() && tail < U32_LIMIT
  {
    st[(name, SlotKey(cfg, tail)) := data]
      [(name, QueueKey(cfg, TAIL)) := EncodeU32((tail + 1) % U32_LIMIT)]
  }

  /** `states` without the slots `lo`, ..., `hi - 1`. */
  function RemoveSlots(cfg: Config, st: States, name: H256, lo: nat, hi: nat): States
    requires cfg.Valid() && lo <= hi < U32_LIMIT
    decreases hi - lo
  {
    if lo == hi then st
    else RemoveSlots(cfg, st, name, lo, hi - 1) - {(name, SlotKey(cfg, hi - 1))}
  }

  function SetHead(cfg: Config, st: States, name: H256, index: nat): Result<States, Error>
    requires cfg.Valid()
  {
    match (ReadU32(cfg, st, name, HEAD), ReadU32(cfg, st, name, TAIL))
    case (Some(head), Some(tail)) =>
      if head <= index <= tail then
        Ok(RemoveSlots(cfg, st, name, head, index)[(name, QueueKey(cfg, HEAD)) := EncodeU32(index)])
      else Err(InvalidQueueHead)
    case _ => Err(Trap)
  }

  // ---------------------------------------------------------------- abstraction

  function HeadOf(cfg: Config, st: States, name: H256): (index: nat)
    requires cfg.Valid()
    ensures index < U32_LIMIT
  {
    match ReadU32(cfg, st, name, HEAD) case Some(h) => h case None => 0
  }

  function TailOf(cfg: Config, st: States, name: H256): (index: nat)
    requires cfg.Valid()
    ensures index < U32_LIMIT
  {
    match ReadU32(cfg, st, name, TAIL) case Some(t) => t case None => 0
  }

  /** Slot `i` as it is stored, and the empty value when it is not. */
  function Slot(cfg: Config, st: States, name: H256, i: nat): Value
    requires cfg.Valid() && i < U32_LIMIT
  {
    match Get(st, name, SlotKey(cfg, i)) case Some(v) => v case None => []
  }

  function Slots(cfg: Config, st: States, name: H256, lo: nat, hi: nat): (s: seq<Value>)
    requires cfg.Valid() && hi < U32_LIMIT
    ensures lo <= hi ==> |s| == hi - lo
  {
    if lo > hi then [] else seq<Value>(hi - lo, i requires 0 <= i < hi - lo => Slot(cfg, st, name, lo + i))
  }

  /** The messages waiting in the queue, read slot by slot from the store. */
  function Pending(cfg: Config, st: States, name: H256): seq<Value>
    requires cfg.Valid()
  {
    Slots(cfg, st, name, HeadOf(cfg, st, name), TailOf(cfg, st, name))
  }

  /** The store holds a queue under `name`: both indices decode, the stored slots are exactly
      those in [head, tail), and there are at most `capacity` of them. */
  ghost predicate QueueOk(cfg: Config, st: States, name: H256)
    requires cfg.Valid()
  {
    var head, tail := HeadOf(cfg, st, name), TailOf(cfg, st, name);
    && ReadU32(cfg, st, name, HEAD).Some?
    && ReadU32(cfg, st, name, TAIL).Some?
    && head <= tail <= head + cfg.capacity
    && forall i: nat | i < U32_LIMIT :: (name, SlotKey(cfg, i)) in st <==> head <= i < tail
  }

  /** Two stores agree on everything the queue of `name` consists of. */
  ghost predicate SameQueue(cfg: Config, st: States, st': States, name: H256)
    requires cfg.Valid()
  {
    forall k: Key | IsQueueKey(cfg, k) :: Get(st, name, k) == Get(st', name, k)
  }

  lemma SameQueueSameContents(cfg: Config, st: States, st': States, name: H256)
    requires cfg.Valid() && SameQueue(cfg, st, st', name)
    ensures HeadOf(cfg, st', name) == HeadOf(cfg, st, name) && TailOf(cfg, st', name) == TailOf(cfg, st, name)
    ensures Pending(cfg, st', name) == Pending(cfg, st, name)
    ensures QueueOk(cfg, st, name) <==> QueueOk(cfg, st', name)
  {
    hide EncodeU32, DecodeU32;
    assert IsQueueKey(cfg, QueueKey(cfg, HEAD)) && IsQueueKey(cfg, QueueKey(cfg, TAIL));
    forall i: nat | i < U32_LIMIT
      ensures Get(st, name, SlotKey(cfg, i)) == Get(st', name, SlotKey(cfg, i))
      ensures Slot(cfg, st, name, i) == Slot(cfg, st', name, i)
    {
      QueueKeysDistinct(cfg, i, i);
    }
  }

  lemma EmptyQueueOk(cfg: Config, st: States, name: H256)
    requires cfg.Valid() && forall k: Key :: (name, k) !in st
    ensures QueueOk(cfg, st, name) && HeadOf(cfg, st, name) == 0 && Pending(cfg, st, name) == []
  {
  }

  /** The bytes of a name of the source. */
  predicate Spells(bytes: Bytes, text: string) {
    |bytes| == |text| && forall i | 0 <= i < |text| :: bytes[i] as char == text[i]
  }

  /** Where a client finds the queue, byte by byte: the indices under the prefix followed by `_head`
      and `_tail`, and message `i` under the prefix followed by the digits of `i`. */
  lemma QueueLayout(cfg: Config, st: States, name: H256, head: Key, tail: Key, slot: Key, i: nat)
    requires cfg.Valid() && QueueOk(cfg, st, name) && i < U32_LIMIT
    requires cfg.prefix <= head && Spells(head[|cfg.prefix|..], "_head")
    requires cfg.prefix <= tail && Spells(tail[|cfg.prefix|..], "_tail")
    requires cfg.prefix <= slot && Digits(slot[|cfg.prefix|..], i)
    ensures IndexAt(st, name, head, HeadOf(cfg, st, name)) && IndexAt(st, name, tail, TailOf(cfg, st, name))
    ensures Get(st, name, slot)
         == if HeadOf(cfg, st, name) <= i < TailOf(cfg, st, name)
            then Some(Pending(cfg, st, name)[i - HeadOf(cfg, st, name)]) else None
  {
    hide EncodeU32, DecodeU32, Digits;
    var p := |cfg.prefix|;
    assert head == QueueKey(cfg, HEAD) by { assert head == cfg.prefix + head[p..] && head[p..] == HEAD; }
    assert tail == QueueKey(cfg, TAIL) by { assert tail == cfg.prefix + tail[p..] && tail[p..] == TAIL; }
    assert slot == SlotKey(cfg, i) by {
      assert slot == cfg.prefix + slot[p..];
      SameDigits(slot[p..], i);
    }
    DecodedDigits(Get(st, name, head));
    DecodedDigits(Get(st, name, tail));
    var head', tail' := HeadOf(cfg, st, name), TailOf(cfg, st, name);
    assert (name, SlotKey(cfg, i)) in st <==> head' <= i < tail';
    if head' <= i < tail' {
      assert Pending(cfg, st, name)[i - head'] == Slot(cfg, st, name, i);
    }
  }

  /** The keys of a queue are its two indices and its slots, no others. */
  lemma QueueKeysAre(cfg: Config, key: Key)
    requires cfg.Valid()
    ensures IsQueueKey(cfg, key) <==>
      || key == cfg.prefix + HEAD
      || key == cfg.prefix + TAIL
      || exists i: nat :: i < U32_LIMIT && key == SlotKey(cfg, i)
  {
    hide EncodeU32, DecodeU32, Digits;
    var p := |cfg.prefix|;
    if cfg.prefix <= key && |key| == p + 4 {
      var i := DecodeU32(key[p..]).value;
      U32Digits(key[p..], i);
      assert key[p..][..4] == key[p..];
      SameDigits(key[p..], i);
      assert key == cfg.prefix + key[p..] == SlotKey(cfg, i);
    }
    forall i: nat | i < U32_LIMIT ensures IsQueueKey(cfg, SlotKey(cfg, i)) {
      QueueKeysDistinct(cfg, i, i);
    }
  }

  /** An index is stored as its four digits, or is 0 and not stored. */
  predicate IndexAt(st: States, name: H256, key: Key, index: nat) {
    match Get(st, name, key)
    case None => index == 0
    case Some(b) => |b| >= 4 && Digits(b[..4], index)
  }

  lemma SameDigits(b: Bytes, i: nat)
    requires i < U32_LIMIT && Digits(b, i)
    ensures b == EncodeU32(i)
  {
  }

  lemma DecodedDigits(entry: Option<Value>)
    ensures match entry case Some(b) => DecodeU32(b).Some? ==> Digits(b[..4], DecodeU32(b).value) case None => true
  {
    if entry.Some? && DecodeU32(entry.value).Some? {
      U32Digits(entry.value, DecodeU32(entry.value).value);
    }
  }

  /** `push_message` appends, unless the tail index is the last `u32`. */
  lemma PushAppends(cfg: Config, st: States, name: H256, data: Value)
    requires cfg.Valid() && QueueOk(cfg, st, name)
    requires |Pending(cfg, st, name)| < cfg.capacity && TailOf(cfg, st, name) + 1 < U32_LIMIT
    ensures var st' := PushState(cfg, st, name, TailOf(cfg, st, name), data);
      && QueueOk(cfg, st', name)
      && HeadOf(cfg, st', name) == HeadOf(cfg, st, name)
      && TailOf(cfg, st', name) == TailOf(cfg, st, name) + 1
      && Pending(cfg, st', name) == Pending(cfg, st, name) + [data]
  {
    hide EncodeU32, DecodeU32;
    var head, tail := HeadOf(cfg, st, name), TailOf(cfg, st, name);
    var st' := PushState(cfg, st, name, tail, data);
    QueueKeysDistinct(cfg, tail, tail);
    U32RoundTrip(tail + 1);
    forall i: nat | i < U32_LIMIT
      ensures Get(st', name, SlotKey(cfg, i)) == if i == tail then Some(data) else Get(st, name, SlotKey(cfg, i))
    {
      QueueKeysDistinct(cfg, i, tail);
    }
    assert HeadOf(cfg, st', name) == head && TailOf(cfg, st', name) == tail + 1;
    assert forall i: nat | head <= i < tail :: Slot(cfg, st', name, i) == Slot(cfg, st, name, i);
    assert Slot(cfg, st', name, tail) == data;
  }

  /** A push to a well-formed queue is accepted exactly when the name is claimed and there is room;
      it returns the tail index. It never panics. */
  lemma PushAcceptedIff(cfg: Config, c: Chain, name: H256, data: Value)
    requires cfg.Valid() && QueueOk(cfg, c.states, name)
    ensures var r := PushMessage(cfg, c, name, data);
      && (r.Ok? <==> name in c.submitters && |Pending(cfg, c.states, name)| < cfg.capacity)
      && (r.Ok? ==> r.value.1 == HeadOf(cfg, c.states, name) + |Pending(cfg, c.states, name)|)
      && (r.Err? ==> r.error == if name in c.submitters then QueueIsFull else NameNotExist)
  {
  }

  /** Exactly when a push that is accepted extends the queue: a tail of 2^32 - 1 wraps to 0. */
  lemma PushAppendsIff(cfg: Config, st: States, name: H256, data: Value)
    requires cfg.Valid() && QueueOk(cfg, st, name) && |Pending(cfg, st, name)| < cfg.capacity
    ensures var st' := PushState(cfg, st, name, TailOf(cfg, st, name), data);
      (QueueOk(cfg, st', name) && Pending(cfg, st', name) == Pending(cfg, st, name) + [data])
        <==> TailOf(cfg, st, name) < U32_LIMIT - 1
  {
    hide EncodeU32, DecodeU32;
    var head, tail := HeadOf(cfg, st, name), TailOf(cfg, st, name);
    if tail < U32_LIMIT - 1 {
      PushAppends(cfg, st, name, data);
    } else {
      var st' := PushState(cfg, st, name, tail, data);
      QueueKeysDistinct(cfg, tail, tail);
      U32RoundTrip(0);
      assert TailOf(cfg, st', name) == 0 && HeadOf(cfg, st', name) == head > 0;
    }
  }

  lemma {:induction false} RemoveSlotsKeeps(cfg: Config, st: States, name: H256, lo: nat, hi: nat, m: H256, k: Key)
    requires cfg.Valid() && lo <= hi < U32_LIMIT
    ensures Get(RemoveSlots(cfg, st, name, lo, hi), m, k)
         == if m == name && exists i: nat :: lo <= i < hi && k == SlotKey(cfg, i) then None else Get(st, m, k)
    decreases hi - lo
  {
    if lo < hi {
      RemoveSlotsKeeps(cfg, st, name, lo, hi - 1, m, k);
    }
  }

  /** Advancing the head to `index` clears the slots before it and leaves the other keys alone. */
  lemma SetHeadEffect(cfg: Config, st: States, name: H256, head: nat, index: nat, i: nat)
    requires cfg.Valid() && head <= index < U32_LIMIT && i < U32_LIMIT
    ensures var st' := RemoveSlots(cfg, st, name, head, index)[(name, QueueKey(cfg, HEAD)) := EncodeU32(index)];
      && Get(st', name, SlotKey(cfg, i)) == (if head <= i < index then None else Get(st, name, SlotKey(cfg, i)))
      && ReadU32(cfg, st', name, HEAD) == Some(index)
      && ReadU32(cfg, st', name, TAIL) == ReadU32(cfg, st, name, TAIL)
  {
    hide EncodeU32, DecodeU32;
    U32RoundTrip(index);
    QueueKeysDistinct(cfg, i, i);
    RemoveSlotsKeeps(cfg, st, name, head, index, name, SlotKey(cfg, i));
    RemoveSlotsKeeps(cfg, st, name, head, index, name, QueueKey(cfg, TAIL));
    forall j: nat | head <= j < index
      ensures SlotKey(cfg, j) != QueueKey(cfg, TAIL)
      ensures SlotKey(cfg, i) == SlotKey(cfg, j) ==> i == j
    {
      QueueKeysDistinct(cfg, i, j);
      QueueKeysDistinct(cfg, j, j);
    }
  }

  /** Slot by slot: `st'` is `st` with the head at `index` and the slots before it cleared. */
  ghost predicate HeadAt(cfg: Config, st: States, st': States, name: H256, index: nat)
    requires cfg.Valid()
  {
    && ReadU32(cfg, st', name, HEAD) == Some(index)
    && ReadU32(cfg, st', name, TAIL) == Some(TailOf(cfg, st, name))
    && forall i: nat | i < U32_LIMIT :: Get(st', name, SlotKey(cfg, i))
         == if HeadOf(cfg, st, name) <= i < index then None else Get(st, name, SlotKey(cfg, i))
  }

  /** The same on the queue that the slots stand for. */
  ghost predicate DropsTo(cfg: Config, st: States, st': States, name: H256, index: nat)
    requires cfg.Valid() && HeadOf(cfg, st, name) <= index <= TailOf(cfg, st, name)
  {
    && QueueOk(cfg, st', name)
    && HeadOf(cfg, st', name) == index
    && TailOf(cfg, st', name) == TailOf(cfg, st, name)
    && Pending(cfg, st', name) == Pending(cfg, st, name)[index - HeadOf(cfg, st, name)..]
  }

  lemma HeadAtDrops(cfg: Config, st: States, st': States, name: H256, index: nat)
    requires cfg.Valid() && QueueOk(cfg, st, name)
    requires HeadOf(cfg, st, name) <= index <= TailOf(cfg, st, name)
    requires HeadAt(cfg, st, st', name, index)
    ensures DropsTo(cfg, st, st', name, index)
  {
    hide EncodeU32, DecodeU32, QueueKey, SlotKey;
    var head, tail := HeadOf(cfg, st, name), TailOf(cfg, st, name);
    assert HeadOf(cfg, st', name) == index && TailOf(cfg, st', name) == tail;
    forall i: nat | index <= i < tail ensures Slot(cfg, st', name, i) == Slot(cfg, st, name, i) {
      assert Get(st', name, SlotKey(cfg, i)) == Get(st, name, SlotKey(cfg, i));
    }
    forall i: nat | i < U32_LIMIT ensures (name, SlotKey(cfg, i)) in st' <==> index <= i < tail {
      assert (name, SlotKey(cfg, i)) in st <==> head <= i < tail;
      assert Get(st', name, SlotKey(cfg, i)) == if head <= i < index then None else Get(st, name, SlotKey(cfg, i));
    }
  }

  lemma DropsHeadAt(cfg: Config, st: States, st': States, name: H256, index: nat)
    requires cfg.Valid() && QueueOk(cfg, st, name)
    requires HeadOf(cfg, st, name) <= index <= TailOf(cfg, st, name)
    requires DropsTo(cfg, st, st', name, index)
    ensures HeadAt(cfg, st, st', name, index)
  {
    hide EncodeU32, DecodeU32, QueueKey, SlotKey;
    var head, tail := HeadOf(cfg, st, name), TailOf(cfg, st, name);
    forall i: nat | i < U32_LIMIT
      ensures Get(st', name, SlotKey(cfg, i)) == if head <= i < index then None else Get(st, name, SlotKey(cfg, i))
    {
      assert (name, SlotKey(cfg, i)) in st <==> head <= i < tail;
      assert (name, SlotKey(cfg, i)) in st' <==> index <= i < tail;
      if index <= i < tail {
        assert Pending(cfg, st', name)[i - index] == Pending(cfg, st, name)[i - head];
        assert Slot(cfg, st', name, i) == Slot(cfg, st, name, i);
      }
    }
  }

  /** Advancing the head drops messages from the front and nothing else. */
  lemma SetHeadDrops(cfg: Config, st: States, name: H256, index: nat)
    requires cfg.Valid() && QueueOk(cfg, st, name)
    ensures SetHead(cfg, st, name, index).Ok?
      <==> HeadOf(cfg, st, name) <= index <= TailOf(cfg, st, name)
    ensures SetHead(cfg, st, name, index).Err? ==> SetHead(cfg, st, name, index).error == InvalidQueueHead
    ensures SetHead(cfg, st, name, index).Ok? ==>
      DropsTo(cfg, st, SetHead(cfg, st, name, index).value, name, index)
  {
    hide Reading, RemoveSlots, SlotKey, QueueKey, DropsTo;
    if SetHead(cfg, st, name, index).Ok? {
      var head, st' := HeadOf(cfg, st, name), SetHead(cfg, st, name, index).value;
      forall i: nat | i < U32_LIMIT
        ensures Get(st', name, SlotKey(cfg, i)) == if head <= i < index then None else Get(st, name, SlotKey(cfg, i))
      {
        SetHeadEffect(cfg, st, name, head, index, i);
      }
      SetHeadEffect(cfg, st, name, head, index, 0);
      HeadAtDrops(cfg, st, st', name, index);
    }
  }

  /** Setting the head of any store: when it is accepted, the error otherwise, and what every key of
      every name holds afterwards. */
  lemma SetHeadIff(cfg: Config, st: States, name: H256, index: nat, n: H256, key: Key)
    requires cfg.Valid()
    ensures var r := SetHead(cfg, st, name, index);
      var decodes := ReadU32(cfg, st, name, HEAD).Some? && ReadU32(cfg, st, name, TAIL).Some?;
      var head := HeadOf(cfg, st, name);
      && (r.Ok? <==> decodes && head <= index <= TailOf(cfg, st, name))
      && (r.Err? ==> r.error == if decodes then InvalidQueueHead else Trap)
      && (r.Ok? && n != name ==> Get(r.value, n, key) == Get(st, n, key))
      && (r.Ok? ==> Get(r.value, name, QueueKey(cfg, HEAD)) == Some(EncodeU32(index)))
      && (r.Ok? && key != QueueKey(cfg, HEAD) ==>
            Get(r.value, name, key)
              == if exists i: nat :: head <= i < index && key == SlotKey(cfg, i) then None else Get(st, name, key))
  {
    hide EncodeU32, Reading, SlotKey, RemoveSlots;
    if SetHead(cfg, st, name, index).Ok? {
      RemoveSlotsKeeps(cfg, st, name, HeadOf(cfg, st, name), index, n, key);
      RemoveSlotsKeeps(cfg, st, name, HeadOf(cfg, st, name), index, name, key);
    }
  }
}
