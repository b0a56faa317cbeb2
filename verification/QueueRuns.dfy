/** Over every run of the pallets, the byte-keyed queue of a name is a first-in first-out queue. */
module QueueRuns {
  import opened Primitives
  import opened Storage
  import opened Queue
  import opened Anchor
  import Isolation

  // ---------------------------------------------------------------- what a rollup does to its own queue

  /** What `key` holds once the updates are applied. */
  function Effective(st: States, name: H256, updates: seq<(Key, Option<Value>)>, key: Key): Option<Value> {
    match Isolation.LastUpdate(updates, key) case Some(v) => v case None => Get(st, name, key)
  }

  /** The last head that the actions set. */
  function LastHead(cfg: Config, actions: seq<Bytes>): Option<nat> {
    if actions == [] then None
    else
      match cfg.decodeAction(actions[|actions| - 1])
      case Some(SetQueueHead(head)) => Some(head)
      case _ => LastHead(cfg, actions[..|actions| - 1])
  }

  /** Read off the transaction and the store before it: with `h0` the head that the updates leave
      and `h` the last one that the actions set, the tail still reads as before, the head ends
      between the old head and the tail, and each slot ends up as advancing the old head to `h`
      would leave it. */
  ghost predicate Spares(cfg: Config, st: States, name: H256, tx: RollupTx)
    requires cfg.Valid()
  {
    var head, tail := HeadOf(cfg, st, name), TailOf(cfg, st, name);
    var h0 := Reading(Effective(st, name, tx.updates, QueueKey(cfg, HEAD)));
    && Reading(Effective(st, name, tx.updates, QueueKey(cfg, TAIL))) == Some(tail)
    && h0.Some?
    && var h := match LastHead(cfg, tx.actions) case Some(last) => last case None => h0.value;
       && head <= h <= tail
       && forall i: nat | i < U32_LIMIT ::
            (if h0.value <= i < h then None else Effective(st, name, tx.updates, SlotKey(cfg, i)))
              == if head <= i < h then None else Get(st, name, SlotKey(cfg, i))
  }

  /** `step`, if it is an accepted rollup under `name`, spares the queue. */
  ghost predicate StepSparesQueue(cfg: Config, c: Chain, step: Step, name: H256)
    requires cfg.Valid()
  {
    step.Submit? && step.name == name && Try(cfg, c, step).Ok? ==> Spares(cfg, c.states, name, step.tx)
  }

  ghost predicate SparesQueue(cfg: Config, steps: seq<Step>, name: H256)
    requires cfg.Valid()
  {
    forall i | 0 <= i < |steps| :: StepSparesQueue(cfg, Run(cfg, steps[..i]), steps[i], name)
  }

  lemma SparesPrefix(cfg: Config, steps: seq<Step>, n: nat, name: H256)
    requires cfg.Valid() && SparesQueue(cfg, steps, name) && n <= |steps|
    ensures SparesQueue(cfg, steps[..n], name)
  {
    hide Run, StepSparesQueue;
    forall i | 0 <= i < n ensures StepSparesQueue(cfg, Run(cfg, steps[..n][..i]), steps[..n][i], name) {
      assert steps[..n][..i] == steps[..i];
    }
  }

  // ---------------------------------------------------------------- what a run pushes and consumes

  /** The id returned and the message stored, when `step` pushes one to `name`. */
  function PushedBy(cfg: Config, c: Chain, step: Step, name: H256): Option<(nat, Value)>
    requires cfg.Valid()
  {
    match step
    case Push(n, data) =>
      (match PushMessage(cfg, c, n, data)
       case Ok((_, id)) => if n == name then Some((id, data)) else None
       case Err(_) => None)
    case Ask(who, key, nonce, requestId) =>
      (match MakeRequest(cfg, c, who, key, nonce, requestId)
       case Ok((_, n)) =>
         var message := RequestMessage(cfg, requestId, c.feeds[(who, key)]);
         if n == name then Some((PushMessage(cfg, c, n, message).value.1, message)) else None
       case Err(_) => None)
    case _ => None
  }

  /** Every (id, message) pushed to `name`, in order. */
  function Pushes(cfg: Config, steps: seq<Step>, name: H256): seq<(nat, Value)>
    requires cfg.Valid()
  {
    if steps == [] then []
    else
      var n := |steps| - 1;
      Pushes(cfg, steps[..n], name) +
      match PushedBy(cfg, Run(cfg, steps[..n]), steps[n], name) case Some(p) => [p] case None => []
  }

  function Messages(pushes: seq<(nat, Value)>): (s: seq<Value>)
    ensures |s| == |pushes|
  {
    seq<Value>(|pushes|, i requires 0 <= i < |pushes| => pushes[i].1)
  }

  /** The slots that each step of the run moved the head over, as stored just before the step. */
  function Consumed(cfg: Config, steps: seq<Step>, name: H256): seq<Value>
    requires cfg.Valid()
  {
    if steps == [] then []
    else
      var n := |steps| - 1;
      var before, after := Run(cfg, steps[..n]).states, Run(cfg, steps).states;
      Consumed(cfg, steps[..n], name) +
      Slots(cfg, before, name, HeadOf(cfg, before, name), HeadOf(cfg, after, name))
  }

  // ---------------------------------------------------------------- one step

  /** From `st` to `st'` the queue of `name` loses a prefix and keeps the rest. */
  ghost predicate Drops(cfg: Config, st: States, st': States, name: H256)
    requires cfg.Valid()
  {
    && HeadOf(cfg, st, name) <= HeadOf(cfg, st', name) <= TailOf(cfg, st, name)
    && DropsTo(cfg, st, st', name, HeadOf(cfg, st', name))
  }

  ghost predicate Appends(cfg: Config, st: States, st': States, name: H256, data: Value)
    requires cfg.Valid()
  {
    && QueueOk(cfg, st', name)
    && HeadOf(cfg, st', name) == HeadOf(cfg, st, name)
    && TailOf(cfg, st', name) == TailOf(cfg, st, name) + 1
    && Pending(cfg, st', name) == Pending(cfg, st, name) + [data]
  }

  lemma SameQueueDrops(cfg: Config, st: States, st': States, name: H256)
    requires cfg.Valid() && QueueOk(cfg, st, name) && SameQueue(cfg, st, st', name)
    ensures Drops(cfg, st, st', name)
  {
    SameQueueSameContents(cfg, st, st', name);
  }

  /** `st'` is `st` with the head moved by `SetQueueHead` actions, the last of which set `last`. */
  ghost predicate Advanced(cfg: Config, st: States, st': States, name: H256, last: Option<nat>)
    requires cfg.Valid()
  {
    match last
    case None => st' == st
    case Some(h) =>
      && ReadU32(cfg, st, name, HEAD).Some?
      && ReadU32(cfg, st, name, TAIL).Some?
      && HeadOf(cfg, st, name) <= h <= TailOf(cfg, st, name)
      && HeadAt(cfg, st, st', name, h)
  }

  lemma SetHeadAdvances(cfg: Config, st: States, name: H256, index: nat)
    requires cfg.Valid() && SetHead(cfg, st, name, index).Ok?
    ensures Advanced(cfg, st, SetHead(cfg, st, name, index).value, name, Some(index))
  {
    hide Reading, RemoveSlots, SlotKey, QueueKey;
    var head, st' := HeadOf(cfg, st, name), SetHead(cfg, st, name, index).value;
    forall i: nat | i < U32_LIMIT
      ensures Get(st', name, SlotKey(cfg, i)) == if head <= i < index then None else Get(st, name, SlotKey(cfg, i))
    {
      SetHeadEffect(cfg, st, name, head, index, i);
    }
    SetHeadEffect(cfg, st, name, head, index, 0);
  }

  lemma AdvancedTwice(cfg: Config, st: States, st1: States, st2: States, name: H256, last: Option<nat>, h: nat)
    requires cfg.Valid() && Advanced(cfg, st, st1, name, last) && Advanced(cfg, st1, st2, name, Some(h))
    ensures Advanced(cfg, st, st2, name, Some(h))
  {
    hide Reading, SlotKey, QueueKey;
    if last.Some? {
      forall i: nat | i < U32_LIMIT
        ensures Get(st2, name, SlotKey(cfg, i))
             == if HeadOf(cfg, st, name) <= i < h then None else Get(st, name, SlotKey(cfg, i))
      {
        assert Get(st2, name, SlotKey(cfg, i))
            == if HeadOf(cfg, st1, name) <= i < h then None else Get(st1, name, SlotKey(cfg, i));
      }
    }
  }

  /** Whatever the store holds, accepted actions move the head to the last one set, slot by slot. */
  lemma {:induction false} ActionsAdvance(cfg: Config, c: Chain, name: H256, who: Account, actions: seq<Bytes>)
    requires cfg.Valid() && ExecActions(cfg, c, name, who, actions).Ok?
    ensures Advanced(cfg, c.states, ExecActions(cfg, c, name, who, actions).value.states, name, LastHead(cfg, actions))
  {
    hide Advanced, SetHead;
    if actions == [] {
      AdvancedNowhere(cfg, c.states, name);
    } else {
      var m := |actions| - 1;
      ActionsAdvance(cfg, c, name, who, actions[..m]);
      var c1 := ExecActions(cfg, c, name, who, actions[..m]).value;
      match cfg.decodeAction(actions[m]) {
        case Some(SetQueueHead(index)) =>
          var st2 := SetHead(cfg, c1.states, name, index).value;
          SetHeadAdvances(cfg, c1.states, name, index);
          AdvancedTwice(cfg, c.states, c1.states, st2, name, LastHead(cfg, actions[..m]), index);
        case Some(Reply(_)) =>
      }
    }
  }

  lemma AdvancedNowhere(cfg: Config, st: States, name: H256)
    requires cfg.Valid()
    ensures Advanced(cfg, st, st, name, None)
  {
  }

  /** Slot by slot or message by message: two ways of saying that the queue loses a prefix. */
  lemma DropsIff(cfg: Config, st: States, st': States, name: H256)
    requires cfg.Valid() && QueueOk(cfg, st, name)
    ensures Drops(cfg, st, st', name) <==> exists h ::
      HeadOf(cfg, st, name) <= h <= TailOf(cfg, st, name) && HeadAt(cfg, st, st', name, h)
  {
    hide QueueOk, DropsTo, Pending, Reading;
    if Drops(cfg, st, st', name) {
      DropsHeadAt(cfg, st, st', name, HeadOf(cfg, st', name));
    }
    if h :| HeadOf(cfg, st, name) <= h <= TailOf(cfg, st, name) && HeadAt(cfg, st, st', name, h) {
      HeadAtDrops(cfg, st, st', name, h);
    }
  }

  /** The exact condition on a rollup under its own name: what is waiting loses a prefix and keeps
      the rest if and only if the transaction, read against the store, spares the queue. */
  lemma OwnRollupDropsIff(cfg: Config, c: Chain, who: Account, name: H256, tx: RollupTx)
    requires cfg.Valid() && QueueOk(cfg, c.states, name) && Rollup(cfg, c, who, name, tx).Ok?
    ensures Drops(cfg, c.states, Rollup(cfg, c, who, name, tx).value.states, name)
      <==> Spares(cfg, c.states, name, tx)
  {
    hide QueueOk, Drops, Pending, Reading, SlotKey, QueueKey, LastHead, ExecActions, CondsHold;
    var st, st' := c.states, Rollup(cfg, c, who, name, tx).value.states;
    var st1 := ApplyUpdates(st, name, tx.updates);
    ActionsAdvance(cfg, c.(states := st1), name, who, tx.actions);
    forall k: Key ensures Get(st1, name, k) == Effective(st, name, tx.updates, k) {
      Isolation.UpdatesApplied(st, name, tx.updates, k);
    }
    DropsIff(cfg, st, st', name);
    AdvancedSpares(cfg, st, st1, st', name, tx);
  }

  lemma AdvancedSpares(cfg: Config, st: States, st1: States, st': States, name: H256, tx: RollupTx)
    requires cfg.Valid()
    requires forall k: Key :: Get(st1, name, k) == Effective(st, name, tx.updates, k)
    requires Advanced(cfg, st1, st', name, LastHead(cfg, tx.actions))
    ensures Spares(cfg, st, name, tx) <==> exists h ::
      HeadOf(cfg, st, name) <= h <= TailOf(cfg, st, name) && HeadAt(cfg, st, st', name, h)
  {
    hide Reading, SlotKey, QueueKey, LastHead, Effective;
    var h0 := Reading(Effective(st, name, tx.updates, QueueKey(cfg, HEAD)));
    if h0.Some? {
      var h := match LastHead(cfg, tx.actions) case Some(last) => last case None => h0.value;
      forall i: nat | i < U32_LIMIT
        ensures Get(st', name, SlotKey(cfg, i))
             == if h0.value <= i < h then None else Effective(st, name, tx.updates, SlotKey(cfg, i))
      {
      }
      assert ReadU32(cfg, st', name, HEAD) == Some(h);
      assert ReadU32(cfg, st', name, TAIL) == Reading(Effective(st, name, tx.updates, QueueKey(cfg, TAIL)));
      if Spares(cfg, st, name, tx) {
        assert HeadAt(cfg, st, st', name, h);
      }
      if HeadOf(cfg, st, name) <= h <= TailOf(cfg, st, name) && HeadAt(cfg, st, st', name, h) {
        assert Spares(cfg, st, name, tx);
      }
    }
  }

  /** Each key of the queue is not written, or is written back last with the value it holds. */
  ghost predicate KeepsQueue(cfg: Config, st: States, name: H256, updates: seq<(Key, Option<Value>)>)
    requires cfg.Valid()
  {
    forall k: Key | IsQueueKey(cfg, k) ::
      Isolation.LastUpdate(updates, k) == None || Isolation.LastUpdate(updates, k) == Some(Get(st, name, k))
  }

  /** Exactly then updates leave every key of the queue as it was. */
  lemma UpdatesKeepQueueIff(cfg: Config, st: States, name: H256, updates: seq<(Key, Option<Value>)>)
    requires cfg.Valid()
    ensures SameQueue(cfg, st, ApplyUpdates(st, name, updates), name)
      <==> KeepsQueue(cfg, st, name, updates)
  {
    hide IsQueueKey;
    forall k: Key
      ensures Get(ApplyUpdates(st, name, updates), name, k) == Effective(st, name, updates, k)
    {
      Isolation.UpdatesApplied(st, name, updates, k);
    }
  }

  /** Such a rollup spares the queue, whatever its actions. */
  lemma KeepingSpares(cfg: Config, c: Chain, who: Account, name: H256, tx: RollupTx)
    requires cfg.Valid() && QueueOk(cfg, c.states, name) && Rollup(cfg, c, who, name, tx).Ok?
    requires KeepsQueue(cfg, c.states, name, tx.updates)
    ensures Spares(cfg, c.states, name, tx)
  {
    hide Reading, EncodeU32, LastHead, ExecActions, CondsHold, ApplyUpdates;
    var st := c.states;
    var st1 := ApplyUpdates(st, name, tx.updates);
    ActionsAdvance(cfg, c.(states := st1), name, who, tx.actions);
    forall k: Key ensures Get(st1, name, k) == Effective(st, name, tx.updates, k) {
      Isolation.UpdatesApplied(st, name, tx.updates, k);
    }
    assert IsQueueKey(cfg, QueueKey(cfg, HEAD)) && IsQueueKey(cfg, QueueKey(cfg, TAIL));
    forall i: nat | i < U32_LIMIT
      ensures Effective(st, name, tx.updates, SlotKey(cfg, i)) == Get(st, name, SlotKey(cfg, i))
    {
      QueueKeysDistinct(cfg, i, i);
    }
  }

  lemma RollupDrops(cfg: Config, c: Chain, step: Step, name: H256)
    requires cfg.Valid() && QueueOk(cfg, c.states, name)
    requires step.Submit? && StepSparesQueue(cfg, c, step, name) && Try(cfg, c, step).Ok?
    ensures Drops(cfg, c.states, Next(cfg, c, step).states, name)
  {
    hide QueueOk, Drops, Rollup, IsQueueKey, Spares;
    if step.name == name {
      OwnRollupDropsIff(cfg, c, step.who, name, step.tx);
    } else {
      Isolation.RollupTouches(cfg, c, step.who, step.name, step.tx);
      SameQueueDrops(cfg, c.states, Next(cfg, c, step).states, name);
    }
  }

  lemma PushElsewhere(cfg: Config, st: States, n: H256, tail: nat, data: Value, name: H256)
    requires cfg.Valid() && tail < U32_LIMIT && n != name && QueueOk(cfg, st, name)
    ensures Drops(cfg, st, PushState(cfg, st, n, tail, data), name)
  {
    SameQueueDrops(cfg, st, PushState(cfg, st, n, tail, data), name);
  }

  lemma PushOnQueue(cfg: Config, c: Chain, n: H256, data: Value, name: H256)
    requires cfg.Valid() && QueueOk(cfg, c.states, name) && PushMessage(cfg, c, n, data).Ok?
    requires n != name || TailOf(cfg, c.states, name) + 1 < U32_LIMIT
    ensures var (st', id) := PushMessage(cfg, c, n, data).value;
      if n == name then id == TailOf(cfg, c.states, name) && Appends(cfg, c.states, st', name, data)
      else Drops(cfg, c.states, st', name)
  {
    hide EncodeU32, DecodeU32;
    if n == name {
      PushAppends(cfg, c.states, name, data);
    } else {
      PushElsewhere(cfg, c.states, n, TailOf(cfg, c.states, n), data, name);
    }
  }

  /** One step either appends the message it pushed or drops a prefix of the queue. */
  lemma StepOnQueue(cfg: Config, c: Chain, step: Step, name: H256)
    requires cfg.Valid() && QueueOk(cfg, c.states, name) && StepSparesQueue(cfg, c, step, name)
    requires TailOf(cfg, c.states, name) + 1 < U32_LIMIT || PushedBy(cfg, c, step, name).None?
    ensures var st, st' := c.states, Next(cfg, c, step).states;
      match PushedBy(cfg, c, step, name)
      case Some((id, data)) => id == TailOf(cfg, st, name) && Appends(cfg, st, st', name, data)
      case None => Drops(cfg, st, st', name)
  {
    var st, c' := c.states, Next(cfg, c, step);
    if Try(cfg, c, step).Err? {
      SameQueueDrops(cfg, st, c'.states, name);
    } else {
      match step {
        case Claim(_, _) => SameQueueDrops(cfg, st, c'.states, name);
        case SetFeed(_, _, _) => SameQueueDrops(cfg, st, c'.states, name);
        case Submit(_, _, _) => RollupDrops(cfg, c, step, name);
        case Push(n, data) => PushOnQueue(cfg, c, n, data, name);
        case Ask(who, key, nonce, requestId) =>
          var n := MakeRequest(cfg, c, who, key, nonce, requestId).value.1;
          PushOnQueue(cfg, c, n, RequestMessage(cfg, requestId, c.feeds[(who, key)]), name);
      }
    }
  }

  // ---------------------------------------------------------------- every run

  /** The queue is well formed, everything pushed was either consumed, in order, or still waits,
      ids count up from 0, and the head counts removals. */
  ghost predicate Fifo(cfg: Config, st: States, name: H256, pushes: seq<(nat, Value)>, consumed: seq<Value>)
    requires cfg.Valid()
  {
    && QueueOk(cfg, st, name)
    && Messages(pushes) == consumed + Pending(cfg, st, name)
    && (forall i | 0 <= i < |pushes| :: pushes[i].0 == i)
    && HeadOf(cfg, st, name) == |consumed|
    && TailOf(cfg, st, name) == |pushes|
    && |Pending(cfg, st, name)| <= cfg.capacity
  }

  /** The slots that the head moves over are the prefix that the queue loses. */
  lemma DropsSplit(cfg: Config, st: States, st': States, name: H256)
    requires cfg.Valid() && QueueOk(cfg, st, name) && Drops(cfg, st, st', name)
    ensures Pending(cfg, st, name)
         == Slots(cfg, st, name, HeadOf(cfg, st, name), HeadOf(cfg, st', name)) + Pending(cfg, st', name)
  {
    var head, head' := HeadOf(cfg, st, name), HeadOf(cfg, st', name);
    var p := Pending(cfg, st, name);
    assert Slots(cfg, st, name, head, head') == p[..head' - head];
    assert p == p[..head' - head] + p[head' - head..];
  }

  lemma FifoDrops(cfg: Config, st: States, st': States, name: H256, pushes: seq<(nat, Value)>, consumed: seq<Value>)
    requires cfg.Valid() && Fifo(cfg, st, name, pushes, consumed) && Drops(cfg, st, st', name)
    ensures Fifo(cfg, st', name, pushes,
                 consumed + Slots(cfg, st, name, HeadOf(cfg, st, name), HeadOf(cfg, st', name)))
  {
    hide EncodeU32, DecodeU32;
    var gone, rest := Slots(cfg, st, name, HeadOf(cfg, st, name), HeadOf(cfg, st', name)), Pending(cfg, st', name);
    DropsSplit(cfg, st, st', name);
    assert consumed + (gone + rest) == (consumed + gone) + rest;
  }

  lemma FifoAppends(cfg: Config, st: States, st': States, name: H256, pushes: seq<(nat, Value)>,
                    consumed: seq<Value>, id: nat, data: Value)
    requires cfg.Valid() && Fifo(cfg, st, name, pushes, consumed)
    requires id == TailOf(cfg, st, name) && Appends(cfg, st, st', name, data)
    ensures Fifo(cfg, st', name, pushes + [(id, data)], consumed)
  {
    var rest := Pending(cfg, st, name);
    assert Messages(pushes + [(id, data)]) == Messages(pushes) + [data];
    assert consumed + (rest + [data]) == (consumed + rest) + [data];
  }

  /** The queue of `name` is first-in first-out over every run whose accepted rollups under `name`
      spare the queue and in which fewer than 2^32 messages are pushed to it. */
  lemma {:induction false} QueueIsFifo(cfg: Config, steps: seq<Step>, name: H256)
    requires cfg.Valid() && SparesQueue(cfg, steps, name)
    requires |Pushes(cfg, steps, name)| < U32_LIMIT
    ensures Fifo(cfg, Run(cfg, steps).states, name, Pushes(cfg, steps, name), Consumed(cfg, steps, name))
  {
    hide Fifo, StepSparesQueue, Next;
    if steps == [] {
      GenesisIsFifo(cfg, name);
    } else {
      var n := |steps| - 1;
      SparesPrefix(cfg, steps, n, name);
      QueueIsFifo(cfg, steps[..n], name);
      StepIsFifo(cfg, Run(cfg, steps[..n]), steps[n], name,
                 Pushes(cfg, steps[..n], name), Consumed(cfg, steps[..n], name));
    }
  }

  lemma GenesisIsFifo(cfg: Config, name: H256)
    requires cfg.Valid()
    ensures Fifo(cfg, GENESIS.states, name, [], [])
  {
    EmptyQueueOk(cfg, GENESIS.states, name);
  }

  /** The queue of `name` is first-in first-out at the `n`-th step of the run. */
  ghost predicate FifoAt(cfg: Config, steps: seq<Step>, n: nat, name: H256)
    requires cfg.Valid() && n <= |steps|
  {
    Fifo(cfg, Run(cfg, steps[..n]).states, name, Pushes(cfg, steps[..n], name), Consumed(cfg, steps[..n], name))
  }

  lemma {:induction false} PushesGrow(cfg: Config, steps: seq<Step>, n: nat, name: H256)
    requires cfg.Valid() && n <= |steps|
    ensures Pushes(cfg, steps[..n], name) <= Pushes(cfg, steps, name)
    decreases |steps|
  {
    if n == |steps| {
      assert steps[..n] == steps;
    } else {
      assert steps[..|steps| - 1][..n] == steps[..n];
      PushesGrow(cfg, steps[..|steps| - 1], n, name);
    }
  }

  /** Both conditions are exact: the queue is first-in first-out all along a run if and only if
      every accepted rollup under the name spares it and fewer than 2^32 messages are pushed. */
  lemma QueueIsFifoIff(cfg: Config, steps: seq<Step>, name: H256)
    requires cfg.Valid()
    ensures (forall n: nat | n <= |steps| :: FifoAt(cfg, steps, n, name))
      <==> SparesQueue(cfg, steps, name) && |Pushes(cfg, steps, name)| < U32_LIMIT
  {
    hide Run, Pushes, Consumed, Fifo, StepSparesQueue;
    if SparesQueue(cfg, steps, name) && |Pushes(cfg, steps, name)| < U32_LIMIT {
      forall n: nat | n <= |steps| ensures FifoAt(cfg, steps, n, name) {
        SparesPrefix(cfg, steps, n, name);
        PushesGrow(cfg, steps, n, name);
        QueueIsFifo(cfg, steps[..n], name);
      }
    }
    if forall n: nat | n <= |steps| :: FifoAt(cfg, steps, n, name) {
      assert FifoAt(cfg, steps, |steps|, name);
      assert steps[..|steps|] == steps;
      FifoBoundsPushes(cfg, Run(cfg, steps).states, name, Pushes(cfg, steps, name), Consumed(cfg, steps, name));
      forall i | 0 <= i < |steps| ensures StepSparesQueue(cfg, Run(cfg, steps[..i]), steps[i], name) {
        assert FifoAt(cfg, steps, i, name) && FifoAt(cfg, steps, i + 1, name);
        FifoStepSpares(cfg, steps, i, name);
      }
    }
  }

  lemma FifoBoundsPushes(
    cfg: Config, st: States, name: H256, pushes: seq<(nat, Value)>, consumed: seq<Value>)
    requires cfg.Valid() && Fifo(cfg, st, name, pushes, consumed)
    ensures |pushes| < U32_LIMIT
  {
  }

  lemma FifoStepSpares(cfg: Config, steps: seq<Step>, i: nat, name: H256)
    requires cfg.Valid() && i < |steps| && FifoAt(cfg, steps, i, name) && FifoAt(cfg, steps, i + 1, name)
    ensures StepSparesQueue(cfg, Run(cfg, steps[..i]), steps[i], name)
  {
    hide Rollup, Spares, Fifo, Slots, HeadOf;
    var c, step := Run(cfg, steps[..i]), steps[i];
    if step.Submit? && step.name == name && Try(cfg, c, step).Ok? {
      PrefixStep(steps, i);
      var pushes, consumed := Pushes(cfg, steps[..i], name), Consumed(cfg, steps[..i], name);
      assert Pushes(cfg, steps[..i + 1], name) == pushes;
      FifoTwiceDrops(cfg, c.states, Next(cfg, c, step).states, name, pushes, consumed);
      FifoIsQueue(cfg, c.states, name, pushes, consumed);
      OwnRollupDropsIff(cfg, c, step.who, name, step.tx);
    }
  }

  lemma FifoIsQueue(cfg: Config, st: States, name: H256, pushes: seq<(nat, Value)>, consumed: seq<Value>)
    requires cfg.Valid() && Fifo(cfg, st, name, pushes, consumed)
    ensures QueueOk(cfg, st, name)
  {
  }

  /** Two stores of a run, with a step between them that pushed nothing. */
  lemma FifoTwiceDrops(
    cfg: Config, st: States, st': States, name: H256, pushes: seq<(nat, Value)>, consumed: seq<Value>)
    requires cfg.Valid() && Fifo(cfg, st, name, pushes, consumed)
    requires Fifo(cfg, st', name, pushes,
                  consumed + Slots(cfg, st, name, HeadOf(cfg, st, name), HeadOf(cfg, st', name)))
    ensures Drops(cfg, st, st', name)
  {
    hide Reading, ReadU32, EncodeU32, SlotKey;
    var head, head' := HeadOf(cfg, st, name), HeadOf(cfg, st', name);
    var gone := Slots(cfg, st, name, head, head');
    var rest := Pending(cfg, st', name);
    assert Messages(pushes) == consumed + Pending(cfg, st, name);
    assert (consumed + gone) + rest == consumed + (gone + rest);
    assert Pending(cfg, st, name) == Messages(pushes)[|consumed|..] == gone + rest;
  }

  /** An update that spares nothing: the owner of a name can store a tail that does not decode. The
      rollup is accepted, and every push after it panics. */
  lemma QueueKeyUpdateBreaks(cfg: Config, c: Chain, who: Account, name: H256)
    requires cfg.Valid() && name in c.submitters && c.submitters[name] == who
    ensures var tx := RollupTx([], [], [(QueueKey(cfg, TAIL), Some([]))]);
      var c' := Next(cfg, c, Submit(who, name, tx));
      && Try(cfg, c, Submit(who, name, tx)).Ok?
      && !QueueOk(cfg, c'.states, name)
      && forall data :: PushMessage(cfg, c', name, data) == Err(Trap)
  {
    var updates := [(QueueKey(cfg, TAIL), Some([]))];
    var st := Put(c.states, name, QueueKey(cfg, TAIL), Some([]));
    assert ApplyUpdates(c.states, name, updates) == st by {
      assert updates[..0] == [];
      assert ApplyUpdates(c.states, name, []) == c.states;
    }
    assert ReadU32(cfg, st, name, TAIL) == None;
  }

  /** A run whose accepted rollups under `name` all keep the queue's keys, whatever their actions,
      spares the queue. */
  lemma {:induction false} KeepingSparesQueue(cfg: Config, steps: seq<Step>, name: H256)
    requires cfg.Valid() && |Pushes(cfg, steps, name)| < U32_LIMIT
    requires forall i | 0 <= i < |steps| :: StepKeepsQueue(cfg, Run(cfg, steps[..i]), steps[i], name)
    ensures SparesQueue(cfg, steps, name)
  {
    hide Run, Pushes, Consumed, Fifo, KeepsQueue, Spares, Rollup;
    if steps != [] {
      var n := |steps| - 1;
      var c, step := Run(cfg, steps[..n]), steps[n];
      PushesGrow(cfg, steps, n, name);
      forall i | 0 <= i < n ensures StepKeepsQueue(cfg, Run(cfg, steps[..n][..i]), steps[..n][i], name) {
        assert steps[..n][..i] == steps[..i];
      }
      KeepingSparesQueue(cfg, steps[..n], name);
      QueueIsFifo(cfg, steps[..n], name);
      FifoIsQueue(cfg, c.states, name, Pushes(cfg, steps[..n], name), Consumed(cfg, steps[..n], name));
      if step.Submit? && step.name == name && Try(cfg, c, step).Ok? {
        KeepingSpares(cfg, c, step.who, name, step.tx);
      }
      forall i | 0 <= i < n ensures StepSparesQueue(cfg, Run(cfg, steps[..i]), steps[i], name) {
        assert steps[..n][..i] == steps[..i];
      }
    }
  }

  ghost predicate StepKeepsQueue(cfg: Config, c: Chain, step: Step, name: H256)
    requires cfg.Valid()
  {
    step.Submit? && step.name == name && Try(cfg, c, step).Ok? ==> KeepsQueue(cfg, c.states, name, step.tx.updates)
  }

  /** A claim, and a rollup that stores the last `u32` as head and as tail: a queue that is empty
      and well formed. */
  function LastIndexSteps(cfg: Config, who: Account, name: H256): seq<Step>
    requires cfg.Valid()
  {
    var last := Some(EncodeU32(U32_LIMIT - 1));
    [Claim(who, name),
     Submit(who, name, RollupTx([], [], [(QueueKey(cfg, HEAD), last), (QueueKey(cfg, TAIL), last)]))]
  }

  lemma LastIndexStore(cfg: Config, who: Account, name: H256)
    requires cfg.Valid()
    ensures var c := Run(cfg, LastIndexSteps(cfg, who, name));
      var last := EncodeU32(U32_LIMIT - 1);
      && name in c.submitters
      && c.states == map[(name, QueueKey(cfg, HEAD)) := last, (name, QueueKey(cfg, TAIL)) := last]
  {
    hide EncodeU32, QueueKey;
    var steps := LastIndexSteps(cfg, who, name);
    assert steps[..1][..0] == [] && Run(cfg, []) == GENESIS;
    var c1 := Run(cfg, steps[..1]);
    assert c1 == GENESIS.(submitters := map[name := who]);
    var tx := steps[1].tx;
    assert tx.updates[..1][..0] == [];
    assert ApplyUpdates(c1.states, name, []) == c1.states;
    assert ApplyUpdates(c1.states, name, tx.updates[..1]) == map[(name, tx.updates[0].0) := tx.updates[0].1.value];
    assert Rollup(cfg, c1, who, name, tx) == Ok(c1.(states := ApplyUpdates(c1.states, name, tx.updates)));
    assert steps[..2] == steps && steps[1] == Submit(who, name, tx);
  }

  /** An instance of the wrap-around, after two accepted calls from genesis: the next push is
      accepted, the tail goes to 0, and the queue is lost. */
  lemma PushAtLastIndexWraps(cfg: Config, who: Account, name: H256, data: Value)
    requires cfg.Valid() && cfg.capacity > 0
    ensures var c := Run(cfg, LastIndexSteps(cfg, who, name));
      var r := Try(cfg, c, Push(name, data));
      && QueueOk(cfg, c.states, name)
      && r.Ok?
      && TailOf(cfg, r.value.states, name) == 0
      && !QueueOk(cfg, r.value.states, name)
  {
    hide EncodeU32, DecodeU32, Run, LastIndexSteps;
    var c := Run(cfg, LastIndexSteps(cfg, who, name));
    LastIndexStore(cfg, who, name);
    U32RoundTrip(U32_LIMIT - 1);
    U32RoundTrip(0);
    forall i: nat | i < U32_LIMIT ensures (name, SlotKey(cfg, i)) !in c.states {
      QueueKeysDistinct(cfg, i, i);
    }
    QueueKeysDistinct(cfg, U32_LIMIT - 1, U32_LIMIT - 1);
    PushAppendsIff(cfg, c.states, name, data);
  }

  lemma StepIsFifo(cfg: Config, c: Chain, step: Step, name: H256, pushes: seq<(nat, Value)>, consumed: seq<Value>)
    requires cfg.Valid() && StepSparesQueue(cfg, c, step, name) && Fifo(cfg, c.states, name, pushes, consumed)
    requires |pushes| + 1 < U32_LIMIT || PushedBy(cfg, c, step, name).None?
    ensures var st, st' := c.states, Next(cfg, c, step).states;
      Fifo(cfg, st', name,
           pushes + match PushedBy(cfg, c, step, name) case Some(p) => [p] case None => [],
           consumed + Slots(cfg, st, name, HeadOf(cfg, st, name), HeadOf(cfg, st', name)))
  {
    var st, st' := c.states, Next(cfg, c, step).states;
    StepOnQueue(cfg, c, step, name);
    match PushedBy(cfg, c, step, name) {
      case None =>
        FifoDrops(cfg, st, st', name, pushes, consumed);
        assert pushes + [] == pushes;
      case Some((id, data)) =>
        FifoAppends(cfg, st, st', name, pushes, consumed, id, data);
        assert consumed + Slots(cfg, st, name, HeadOf(cfg, st, name), HeadOf(cfg, st', name)) == consumed;
    }
  }
}
