/** Rollup clients that take messages from the queue of a name, any number of them interleaved:
    every message is processed exactly once. */
module Consumers {
  import opened Primitives
  import opened Storage
  import opened Queue
  import opened Anchor
  import opened QueueRuns
  import opened Serial
  import Isolation

  // ---------------------------------------------------------------- clients of the queue

  /** The client read the head, and it was `h`. */
  ghost predicate SawHead(cfg: Config, seen: Transcript, h: nat)
    requires cfg.Valid()
  {
    exists v :: (QueueKey(cfg, HEAD), v) in seen && Reading(v) == Some(h)
  }

  /** The submission of a client that read `seen` moves the head over `x`, after it read `m` there. */
  ghost predicate Handles(cfg: Config, seen: Transcript, tx: RollupTx, x: nat, m: Option<Value>)
    requires cfg.Valid()
  {
    && x < U32_LIMIT
    && (SlotKey(cfg, x), m) in seen
    && LastHead(cfg, tx.actions).Some?
    && exists h: nat :: SawHead(cfg, seen, h) && h <= x < LastHead(cfg, tx.actions).value
  }

  /** The client set a head, and read the old head and each slot that it moves the head over. */
  ghost predicate ReadsWhatItTakes(cfg: Config, seen: Transcript, tx: RollupTx)
    requires cfg.Valid()
  {
    && LastHead(cfg, tx.actions).Some?
    && (exists v :: (QueueKey(cfg, HEAD), v) in seen)
    && forall h: nat, x: nat | SawHead(cfg, seen, h) && h <= x < LastHead(cfg, tx.actions).value && x < U32_LIMIT ::
         exists m :: (SlotKey(cfg, x), m) in seen
  }

  ghost predicate Consumer(cfg: Config, client: Client)
    requires cfg.Valid()
  {
    forall seen: Transcript | client.next(seen).Finish? :: ReadsWhatItTakes(cfg, seen, client.next(seen).tx)
  }

  /** At event `i` a client of `name` has a submission accepted that handles message `x`, which it
      read as `m`. */
  ghost predicate HandledAt(
    cfg: Config, clients: map<ClientId, Client>, events: seq<Event>, name: H256, i: nat, x: nat, m: Option<Value>)
    requires cfg.Valid() && i < |events|
  {
    var s := At(cfg, clients, events, i);
    && events[i].Advance?
    && Accepted(cfg, clients, s, events[i].id)
    && var client, seen := clients[events[i].id], SeenBy(s, events[i].id);
       client.name == name && Handles(cfg, seen, client.next(seen).tx, x, m)
  }

  // ---------------------------------------------------------------- an interleaving is a run

  function At(cfg: Config, clients: map<ClientId, Client>, events: seq<Event>, n: nat): System
    requires cfg.Valid() && n <= |events|
  {
    Interleaved(cfg, clients, GENESIS, events[..n])
  }

  /** The calls that reach the chain. */
  function StepsOf(cfg: Config, clients: map<ClientId, Client>, events: seq<Event>): seq<Step>
    requires cfg.Valid()
  {
    if events == [] then []
    else
      var n := |events| - 1;
      var s := At(cfg, clients, events, n);
      StepsOf(cfg, clients, events[..n]) +
      match events[n]
      case Env(step) => [step]
      case Advance(id) =>
        if id in clients && clients[id].next(SeenBy(s, id)).Finish?
        then [SubmitStep(clients[id], clients[id].next(SeenBy(s, id)).tx)] else []
  }

  lemma RunSnoc(cfg: Config, steps: seq<Step>, step: Step)
    requires cfg.Valid()
    ensures Run(cfg, steps + [step]) == Next(cfg, Run(cfg, steps), step)
  {
    assert (steps + [step])[..|steps|] == steps;
  }

  lemma {:induction false} ChainIsRun(cfg: Config, clients: map<ClientId, Client>, events: seq<Event>)
    requires cfg.Valid()
    ensures Interleaved(cfg, clients, GENESIS, events).chain == Run(cfg, StepsOf(cfg, clients, events))
  {
    hide Next, Run;
    if events == [] {
      assert Run(cfg, []) == GENESIS by { EmptyRun(cfg); }
    } else {
      var n := |events| - 1;
      var steps := StepsOf(cfg, clients, events[..n]);
      ChainIsRun(cfg, clients, events[..n]);
      assert steps + [] == steps;
      match events[n] {
        case Env(step) => RunSnoc(cfg, steps, step);
        case Advance(id) =>
          var s := At(cfg, clients, events, n);
          if id in clients && clients[id].next(SeenBy(s, id)).Finish? {
            RunSnoc(cfg, steps, SubmitStep(clients[id], clients[id].next(SeenBy(s, id)).tx));
          }
      }
    }
  }

  lemma EmptyRun(cfg: Config)
    requires cfg.Valid()
    ensures Run(cfg, []) == GENESIS
  {
  }

  lemma {:induction false} StepsGrow(cfg: Config, clients: map<ClientId, Client>, events: seq<Event>, n: nat)
    requires cfg.Valid() && n <= |events|
    ensures StepsOf(cfg, clients, events[..n]) <= StepsOf(cfg, clients, events)
    decreases |events|
  {
    if n == |events| {
      assert events[..n] == events;
    } else {
      var m := |events| - 1;
      assert events[..m][..n] == events[..n];
      StepsGrow(cfg, clients, events[..m], n);
    }
  }

  // ---------------------------------------------------------------- the queue along an interleaving

  /** The queue of `name` stays first-in first-out: the exact conditions of `QueueIsFifoIff`. */
  ghost predicate Sound(cfg: Config, clients: map<ClientId, Client>, events: seq<Event>, name: H256)
    requires cfg.Valid()
  {
    var steps := StepsOf(cfg, clients, events);
    SparesQueue(cfg, steps, name) && |Pushes(cfg, steps, name)| < U32_LIMIT
  }

  function HeadAfter(cfg: Config, clients: map<ClientId, Client>, events: seq<Event>, n: nat, name: H256): nat
    requires cfg.Valid() && n <= |events|
  {
    HeadOf(cfg, At(cfg, clients, events, n).chain.states, name)
  }

  /** Every message that the events push to `name`, in order. */
  function Pushed(cfg: Config, clients: map<ClientId, Client>, events: seq<Event>, name: H256): seq<Value>
    requires cfg.Valid()
  {
    Messages(Pushes(cfg, StepsOf(cfg, clients, events), name))
  }

  lemma {:induction false} ConsumedGrow(cfg: Config, steps: seq<Step>, n: nat, name: H256)
    requires cfg.Valid() && n <= |steps|
    ensures Consumed(cfg, steps[..n], name) <= Consumed(cfg, steps, name)
    decreases |steps|
  {
    hide Run, Slots;
    if n == |steps| {
      assert steps[..n] == steps;
    } else {
      assert steps[..|steps| - 1][..n] == steps[..n];
      ConsumedGrow(cfg, steps[..|steps| - 1], n, name);
    }
  }

  lemma SoundPrefix(cfg: Config, clients: map<ClientId, Client>, events: seq<Event>, n: nat, name: H256)
    requires cfg.Valid() && n <= |events| && Sound(cfg, clients, events, name)
    ensures Sound(cfg, clients, events[..n], name)
    ensures Pushed(cfg, clients, events[..n], name) <= Pushed(cfg, clients, events, name)
  {
    hide SparesQueue, StepsOf, Pushes;
    var steps, k := StepsOf(cfg, clients, events), |StepsOf(cfg, clients, events[..n])|;
    StepsGrow(cfg, clients, events, n);
    assert StepsOf(cfg, clients, events[..n]) == steps[..k];
    SparesPrefix(cfg, steps, k, name);
    PushesGrow(cfg, steps, k, name);
  }

  /** Where the queue stands at an event: `Fifo`, in terms of the events. */
  lemma QueueAt(cfg: Config, clients: map<ClientId, Client>, events: seq<Event>, n: nat, name: H256)
    requires cfg.Valid() && n <= |events| && Sound(cfg, clients, events, name)
    ensures var st := At(cfg, clients, events, n).chain.states;
      && QueueOk(cfg, st, name)
      && TailOf(cfg, st, name) == |Pushed(cfg, clients, events[..n], name)|
      && (forall x: nat | HeadOf(cfg, st, name) <= x < TailOf(cfg, st, name) ::
            Slot(cfg, st, name, x) == Pushed(cfg, clients, events[..n], name)[x])
  {
    hide SparesQueue, StepsOf, Pushes, Consumed, Run, Interleaved, Slot;
    var steps := StepsOf(cfg, clients, events[..n]);
    SoundPrefix(cfg, clients, events, n, name);
    QueueIsFifo(cfg, steps, name);
    ChainIsRun(cfg, clients, events[..n]);
    FifoSlots(cfg, Run(cfg, steps).states, name, Pushes(cfg, steps, name), Consumed(cfg, steps, name));
  }

  lemma FifoSlots(cfg: Config, st: States, name: H256, pushes: seq<(nat, Value)>, consumed: seq<Value>)
    requires cfg.Valid() && Fifo(cfg, st, name, pushes, consumed)
    ensures QueueOk(cfg, st, name) && TailOf(cfg, st, name) == |Messages(pushes)|
    ensures forall x: nat | HeadOf(cfg, st, name) <= x < TailOf(cfg, st, name) ::
      Slot(cfg, st, name, x) == Messages(pushes)[x]
  {
    hide Slot, Messages, ReadU32, HeadOf, TailOf;
    var head := HeadOf(cfg, st, name);
    forall x: nat | head <= x < TailOf(cfg, st, name) ensures Slot(cfg, st, name, x) == Messages(pushes)[x] {
      assert Pending(cfg, st, name)[x - head] == Slot(cfg, st, name, x);
    }
  }

  lemma HeadGrows(cfg: Config, clients: map<ClientId, Client>, events: seq<Event>, i: nat, k: nat, name: H256)
    requires cfg.Valid() && i <= k <= |events| && Sound(cfg, clients, events, name)
    ensures HeadAfter(cfg, clients, events, i, name) <= HeadAfter(cfg, clients, events, k, name)
  {
    hide SparesQueue, StepsOf, Pushes, Consumed, Run, Interleaved, QueueOk, Pending, HeadOf, TailOf;
    var steps, steps' := StepsOf(cfg, clients, events[..i]), StepsOf(cfg, clients, events[..k]);
    SoundPrefix(cfg, clients, events, i, name);
    SoundPrefix(cfg, clients, events, k, name);
    QueueIsFifo(cfg, steps, name);
    QueueIsFifo(cfg, steps', name);
    ChainIsRun(cfg, clients, events[..i]);
    ChainIsRun(cfg, clients, events[..k]);
    assert events[..k][..i] == events[..i];
    StepsGrow(cfg, clients, events[..k], i);
    assert steps == steps'[..|steps|];
    ConsumedGrow(cfg, steps', |steps|, name);
  }

  // ---------------------------------------------------------------- one accepted submission

  /** What an accepted client read is what storage holds, and its last `SetQueueHead` is the head
      afterwards. */
  lemma AcceptedReads(cfg: Config, clients: map<ClientId, Client>, s: System, id: ClientId)
    requires cfg.Valid() && Accepted(cfg, clients, s, id) && Guarded(clients[id])
    requires LastHead(cfg, clients[id].next(SeenBy(s, id)).tx.actions).Some?
    ensures forall key, v | (key, v) in SeenBy(s, id) :: v == Get(s.chain.states, clients[id].name, key)
    ensures HeadOf(cfg, Happen(cfg, clients, s, Advance(id)).chain.states, clients[id].name)
         == LastHead(cfg, clients[id].next(SeenBy(s, id)).tx.actions).value
  {
    hide ExecActions, Reading, ApplyUpdates, LastHead;
    var client, seen := clients[id], SeenBy(s, id);
    var tx := client.next(seen).tx;
    forall key, v | (key, v) in seen ensures v == Get(s.chain.states, client.name, key) {
      var i :| 0 <= i < |seen| && seen[i] == (key, v);
      assert Eq(seen[i].0, seen[i].1) in tx.conds;
      var j :| 0 <= j < |tx.conds| && tx.conds[j] == Eq(key, v);
    }
    ActionsAdvance(cfg, s.chain.(states := ApplyUpdates(s.chain.states, client.name, tx.updates)),
                   client.name, client.who, tx.actions);
  }

  lemma AtNext(cfg: Config, clients: map<ClientId, Client>, events: seq<Event>, i: nat)
    requires cfg.Valid() && i < |events|
    ensures At(cfg, clients, events, i + 1) == Happen(cfg, clients, At(cfg, clients, events, i), events[i])
  {
    PrefixStep(events, i);
  }

  /** A submission handles messages between the heads before and after it, as stored. */
  lemma HandledBetween(
    cfg: Config, clients: map<ClientId, Client>, events: seq<Event>, name: H256, i: nat, x: nat, m: Option<Value>)
    requires cfg.Valid() && Clients(clients) && i < |events|
    requires HandledAt(cfg, clients, events, name, i, x, m)
    ensures HeadAfter(cfg, clients, events, i, name) <= x < HeadAfter(cfg, clients, events, i + 1, name)
    ensures m == Get(At(cfg, clients, events, i).chain.states, name, SlotKey(cfg, x))
  {
    hide Interleaved, Happen, Accepted, LastHead, Reading, SlotKey, QueueKey, Guarded;
    var s, id := At(cfg, clients, events, i), events[i].id;
    AcceptedClient(cfg, clients, s, id);
    AcceptedReads(cfg, clients, s, id);
    AtNext(cfg, clients, events, i);
  }

  lemma AcceptedClient(cfg: Config, clients: map<ClientId, Client>, s: System, id: ClientId)
    requires cfg.Valid() && Accepted(cfg, clients, s, id)
    ensures id in clients && clients[id].next(SeenBy(s, id)).Finish?
  {
  }

  // ---------------------------------------------------------------- main results

  /** Whatever happens in between, a message that a client handles is the one pushed with that id. */
  lemma HandledIsPushed(
    cfg: Config, clients: map<ClientId, Client>, events: seq<Event>, name: H256, i: nat, x: nat, m: Option<Value>)
    requires cfg.Valid() && Clients(clients) && Sound(cfg, clients, events, name)
    requires i < |events| && HandledAt(cfg, clients, events, name, i, x, m)
    ensures x < |Pushed(cfg, clients, events, name)| && m == Some(Pushed(cfg, clients, events, name)[x])
  {
    hide Interleaved, Happen, HandledAt, Sound, Pushed, SlotKey, ReadU32;
    var st := At(cfg, clients, events, i).chain.states;
    HandledBetween(cfg, clients, events, name, i, x, m);
    QueueAt(cfg, clients, events, i, name);
    QueueAt(cfg, clients, events, i + 1, name);
    SoundPrefix(cfg, clients, events, i, name);
    SubmissionPushesNothing(cfg, clients, events, i, name, x, m);
    assert (name, SlotKey(cfg, x)) in st <==> HeadOf(cfg, st, name) <= x < TailOf(cfg, st, name);
  }

  lemma SubmissionPushesNothing(
    cfg: Config, clients: map<ClientId, Client>, events: seq<Event>, i: nat, name: H256, x: nat, m: Option<Value>)
    requires cfg.Valid() && i < |events| && HandledAt(cfg, clients, events, name, i, x, m)
    ensures Pushed(cfg, clients, events[..i + 1], name) == Pushed(cfg, clients, events[..i], name)
  {
    hide Handles, Run, Try, Interleaved;
    PrefixStep(events, i);
    var steps := StepsOf(cfg, clients, events[..i]);
    var step := StepsOf(cfg, clients, events[..i + 1])[|steps|];
    assert (steps + [step])[..|steps|] == steps;
  }

  /** No message is handled by two accepted submissions, of one client or of two. */
  lemma HandledOnce(
    cfg: Config, clients: map<ClientId, Client>, events: seq<Event>, name: H256, x: nat,
    i: nat, m: Option<Value>, k: nat, m': Option<Value>)
    requires cfg.Valid() && Clients(clients) && Sound(cfg, clients, events, name)
    requires i < |events| && HandledAt(cfg, clients, events, name, i, x, m)
    requires k < |events| && HandledAt(cfg, clients, events, name, k, x, m')
    ensures i == k && m == m'
  {
    hide Interleaved, HandledAt, Sound, HeadAfter;
    HandledBetween(cfg, clients, events, name, i, x, m);
    HandledBetween(cfg, clients, events, name, k, x, m');
    if i < k {
      HeadGrows(cfg, clients, events, i + 1, k, name);
    } else if k < i {
      HeadGrows(cfg, clients, events, k + 1, i, name);
    }
  }

  /** Under `name` only guarded consumers submit. */
  ghost predicate OnlyConsumers(cfg: Config, clients: map<ClientId, Client>, events: seq<Event>, name: H256)
    requires cfg.Valid()
  {
    && Clients(clients)
    && (forall id | id in clients && clients[id].name == name :: Consumer(cfg, clients[id]))
    && (forall i | 0 <= i < |events| && events[i].Env? && events[i].step.Submit? :: events[i].step.name != name)
  }

  /** Only an accepted rollup under the name moves its head. */
  lemma HeadStays(cfg: Config, c: Chain, step: Step, name: H256)
    requires cfg.Valid() && !(step.Submit? && step.name == name && Try(cfg, c, step).Ok?)
    ensures HeadOf(cfg, Next(cfg, c, step).states, name) == HeadOf(cfg, c.states, name)
  {
    hide Rollup, Reading, EncodeU32;
    match step {
      case Submit(who, n, tx) =>
        if Try(cfg, c, step).Ok? {
          Isolation.RollupTouches(cfg, c, who, n, tx);
        }
      case Push(n, _) => PushKeepsHead(cfg, c.states, n, TailOf(cfg, c.states, n), name);
      case Ask(who, key, nonce, id) =>
        if Try(cfg, c, step).Ok? {
          var n := MakeRequest(cfg, c, who, key, nonce, id).value.1;
          PushKeepsHead(cfg, c.states, n, TailOf(cfg, c.states, n), name);
        }
      case _ =>
    }
  }

  lemma PushKeepsHead(cfg: Config, st: States, n: H256, tail: nat, name: H256)
    requires cfg.Valid() && tail < U32_LIMIT
    ensures forall data :: HeadOf(cfg, PushState(cfg, st, n, tail, data), name) == HeadOf(cfg, st, name)
  {
    hide EncodeU32, Reading;
    QueueKeysDistinct(cfg, tail, tail);
  }

  /** The event that moves the head over `x` is an accepted submission that handles it. */
  lemma MovedIsHandled(cfg: Config, clients: map<ClientId, Client>, events: seq<Event>, name: H256, n: nat, x: nat)
    returns (m: Option<Value>)
    requires cfg.Valid() && n < |events| && OnlyConsumers(cfg, clients, events, name)
    requires Sound(cfg, clients, events, name)
    requires HeadAfter(cfg, clients, events, n, name) <= x < HeadAfter(cfg, clients, events, n + 1, name)
    ensures HandledAt(cfg, clients, events, name, n, x, m)
  {
    hide Interleaved, Sound, Next, Try, Reading, QueueKey, SlotKey, LastHead, Guarded;
    var s := At(cfg, clients, events, n);
    AtNext(cfg, clients, events, n);
    QueueAt(cfg, clients, events, n, name);
    match events[n] {
      case Env(step) => HeadStays(cfg, s.chain, step, name);
      case Advance(id) =>
        var client, seen := clients[id], SeenBy(s, id);
        var tx := client.next(seen).tx;
        if client.name != name || !Accepted(cfg, clients, s, id) {
          HeadStays(cfg, s.chain, SubmitStep(client, tx), name);
          assert false;
        }
        AcceptedReads(cfg, clients, s, id);
        assert SawHead(cfg, seen, HeadAfter(cfg, clients, events, n, name));
        m :| (SlotKey(cfg, x), m) in seen;
    }
  }

  lemma HandledInPrefix(
    cfg: Config, clients: map<ClientId, Client>, events: seq<Event>, n: nat, name: H256,
    i: nat, x: nat, m: Option<Value>)
    requires cfg.Valid() && i < n <= |events|
    ensures HandledAt(cfg, clients, events[..n], name, i, x, m) == HandledAt(cfg, clients, events, name, i, x, m)
  {
    assert events[..n][..i] == events[..i];
  }

  lemma {:induction false} HandledSometime(
    cfg: Config, clients: map<ClientId, Client>, events: seq<Event>, name: H256, x: nat)
    returns (i: nat, m: Option<Value>)
    requires cfg.Valid() && OnlyConsumers(cfg, clients, events, name) && Sound(cfg, clients, events, name)
    requires x < HeadAfter(cfg, clients, events, |events|, name)
    ensures i < |events| && HandledAt(cfg, clients, events, name, i, x, m)
  {
    hide Interleaved, Sound, HandledAt, Consumer;
    if events == [] {
      GenesisHead(cfg, clients, name);
      assert false;
    }
    var n := |events| - 1;
    assert events[..n + 1] == events && events[..n][..n] == events[..n];
    if x < HeadAfter(cfg, clients, events, n, name) {
      SoundPrefix(cfg, clients, events, n, name);
      i, m := HandledSometime(cfg, clients, events[..n], name, x);
      HandledInPrefix(cfg, clients, events, n, name, i, x, m);
    } else {
      i := n;
      m := MovedIsHandled(cfg, clients, events, name, n, x);
    }
  }

  lemma GenesisHead(cfg: Config, clients: map<ClientId, Client>, name: H256)
    requires cfg.Valid()
    ensures HeadAfter(cfg, clients, [], 0, name) == 0
  {
  }

  /** Exactly-once processing: however the clients interleave with each other and with the chain,
      each message below the head has been handled, as it was pushed, by one accepted submission and
      no other; no message above it has been handled. */
  lemma ExactlyOnce(cfg: Config, clients: map<ClientId, Client>, events: seq<Event>, name: H256, x: nat)
    requires cfg.Valid() && OnlyConsumers(cfg, clients, events, name) && Sound(cfg, clients, events, name)
    ensures x < HeadAfter(cfg, clients, events, |events|, name) ==>
      && x < |Pushed(cfg, clients, events, name)|
      && exists i: nat | i < |events| ::
           && HandledAt(cfg, clients, events, name, i, x, Some(Pushed(cfg, clients, events, name)[x]))
           && forall k: nat, m | k < |events| && HandledAt(cfg, clients, events, name, k, x, m) :: k == i
    ensures x >= HeadAfter(cfg, clients, events, |events|, name) ==>
      forall k: nat, m | k < |events| :: !HandledAt(cfg, clients, events, name, k, x, m)
  {
    hide Sound, HandledAt, HeadAfter, Pushed, Consumer;
    if x < HeadAfter(cfg, clients, events, |events|, name) {
      var i, m := HandledSometime(cfg, clients, events, name, x);
      HandledIsPushed(cfg, clients, events, name, i, x, m);
      forall k: nat, m' | k < |events| && HandledAt(cfg, clients, events, name, k, x, m') ensures k == i {
        HandledOnce(cfg, clients, events, name, x, i, m, k, m');
      }
    } else {
      forall k: nat, m | k < |events| ensures !HandledAt(cfg, clients, events, name, k, x, m) {
        if HandledAt(cfg, clients, events, name, k, x, m) {
          HandledBetween(cfg, clients, events, name, k, x, m);
          HeadGrows(cfg, clients, events, k + 1, |events|, name);
        }
      }
    }
  }

  // ---------------------------------------------------------------- a consumer

  /** Reads the head, then the message there, then submits: one message at a time. */
  function TakeOne(cfg: Config, encodeHead: nat -> Bytes, seen: Transcript): Move
    requires cfg.Valid()
  {
    if |seen| == 1 && TookHead(cfg, seen[0]).Some? then Read(SlotKey(cfg, TookHead(cfg, seen[0]).value))
    else if |seen| == 2 && TookHead(cfg, seen[0]).Some? && seen[1].0 == SlotKey(cfg, TookHead(cfg, seen[0]).value) then
      Finish(RollupTx([Eq(seen[0].0, seen[0].1), Eq(seen[1].0, seen[1].1)],
                      [encodeHead(TookHead(cfg, seen[0]).value + 1)], []))
    else Read(QueueKey(cfg, HEAD))
  }

  /** The head that a read returned, unless it is the last `u32` and nothing can follow it. */
  function TookHead(cfg: Config, read: (Key, Option<Value>)): (h: Option<nat>)
    requires cfg.Valid()
    ensures h.Some? ==> read.0 == QueueKey(cfg, HEAD) && Reading(read.1) == h && h.value + 1 < U32_LIMIT
  {
    match Reading(read.1)
    case Some(h) => if read.0 == QueueKey(cfg, HEAD) && h + 1 < U32_LIMIT then Some(h) else None
    case None => None
  }

  lemma TakeOneFinishes(cfg: Config, encodeHead: nat -> Bytes, seen: Transcript)
    requires cfg.Valid() && forall h: nat | h < U32_LIMIT :: cfg.decodeAction(encodeHead(h)) == Some(SetQueueHead(h))
    requires TakeOne(cfg, encodeHead, seen).Finish?
    ensures var tx := TakeOne(cfg, encodeHead, seen).tx;
      && (forall i | 0 <= i < |seen| :: Eq(seen[i].0, seen[i].1) in tx.conds)
      && ReadsWhatItTakes(cfg, seen, tx)
  {
    hide Reading, EncodeU32, TookHead, QueueKey;
    var h := TookHead(cfg, seen[0]).value;
    var tx := TakeOne(cfg, encodeHead, seen).tx;
    assert tx.conds[0] == Eq(seen[0].0, seen[0].1) && tx.conds[1] == Eq(seen[1].0, seen[1].1);
    assert seen[0] == (QueueKey(cfg, HEAD), seen[0].1) && seen[1] == (SlotKey(cfg, h), seen[1].1);
    assert seen[0] in seen && seen[1] in seen;
    assert LastHead(cfg, tx.actions) == Some(h + 1);
    QueueKeysDistinct(cfg, h, h);
    assert forall h': nat | SawHead(cfg, seen, h') :: h' == h;
  }

  /** Such a client meets the conditions of `ExactlyOnce`. */
  lemma TakeOneConsumes(cfg: Config, who: Account, name: H256, encodeHead: nat -> Bytes)
    requires cfg.Valid() && forall h: nat | h < U32_LIMIT :: cfg.decodeAction(encodeHead(h)) == Some(SetQueueHead(h))
    ensures var client := Client(who, name, seen => TakeOne(cfg, encodeHead, seen));
      Guarded(client) && Consumer(cfg, client)
  {
    hide TakeOne, ReadsWhatItTakes;
    forall seen: Transcript | TakeOne(cfg, encodeHead, seen).Finish?
      ensures forall i | 0 <= i < |seen| :: Eq(seen[i].0, seen[i].1) in TakeOne(cfg, encodeHead, seen).tx.conds
      ensures ReadsWhatItTakes(cfg, seen, TakeOne(cfg, encodeHead, seen).tx)
    {
      TakeOneFinishes(cfg, encodeHead, seen);
    }
  }

  /** A claim, a push, and the three moves of such a client. */
  function OneMessage(who: Account, name: H256, data: Value): seq<Event> {
    [Env(Claim(who, name)), Env(Push(name, data)), Advance(0), Advance(0), Advance(0)]
  }

  /** The chain before the client starts: one message waits. */
  lemma OneWaits(cfg: Config, clients: map<ClientId, Client>, who: Account, name: H256, data: Value)
    requires cfg.Valid() && cfg.capacity > 0
    ensures var s := At(cfg, clients, OneMessage(who, name, data), 2);
      && s.seen == map[]
      && s.chain.submitters == map[name := who]
      && Get(s.chain.states, name, QueueKey(cfg, HEAD)) == None
      && Get(s.chain.states, name, SlotKey(cfg, 0)) == Some(data)
      && HeadOf(cfg, s.chain.states, name) == 0 && TailOf(cfg, s.chain.states, name) == 1
      && QueueOk(cfg, s.chain.states, name)
  {
    hide EncodeU32, DecodeU32, QueueKey, HeadOf, TailOf, QueueOk;
    var events := OneMessage(who, name, data);
    AtNext(cfg, clients, events, 0);
    AtNext(cfg, clients, events, 1);
    var c := At(cfg, clients, events, 1).chain;
    assert c == GENESIS.(submitters := map[name := who]);
    EmptyQueueOk(cfg, c.states, name);
    PushAcceptedIff(cfg, c, name, data);
    PushAppends(cfg, c.states, name, data);
    QueueKeysDistinct(cfg, 0, 0);
  }

  /** An instance: the message is handled, so the results above are about something. */
  lemma TakeOneHandles(cfg: Config, client: Client, encodeHead: nat -> Bytes, data: Value)
    requires cfg.Valid() && cfg.capacity > 0
    requires forall h: nat | h < U32_LIMIT :: cfg.decodeAction(encodeHead(h)) == Some(SetQueueHead(h))
    requires forall seen :: client.next(seen) == TakeOne(cfg, encodeHead, seen)
    ensures HandledAt(cfg, map[0 := client], OneMessage(client.who, client.name, data), client.name, 4, 0, Some(data))
  {
    hide Interleaved, EncodeU32, DecodeU32, QueueKey, HeadOf, TailOf, Try, Next, QueueOk;
    var clients, events := map[0 := client], OneMessage(client.who, client.name, data);
    var s := At(cfg, clients, events, 2);
    OneWaits(cfg, clients, client.who, client.name, data);
    AtNext(cfg, clients, events, 2);
    AtNext(cfg, clients, events, 3);
    var seen1: Transcript := [(QueueKey(cfg, HEAD), None)];
    TakeOneMoves(cfg, encodeHead, data);
    assert SeenBy(s, 0) == [] && [] + seen1 == seen1;
    assert At(cfg, clients, events, 3) == System(s.chain, map[0 := seen1]);
    var seen: Transcript := [(QueueKey(cfg, HEAD), None), (SlotKey(cfg, 0), Some(data))];
    assert seen1 + [(SlotKey(cfg, 0), Some(data))] == seen;
    assert At(cfg, clients, events, 4) == System(s.chain, map[0 := seen]);
    var tx := TakeOne(cfg, encodeHead, seen).tx;
    TakeOneAccepted(cfg, s.chain, client.who, client.name, tx, encodeHead(1), data);
    assert seen[0] in seen && seen[1] in seen;
    assert SawHead(cfg, seen, 0);
  }

  lemma TakeOneMoves(cfg: Config, encodeHead: nat -> Bytes, data: Value)
    requires cfg.Valid()
    ensures var head: (Key, Option<Value>) := (QueueKey(cfg, HEAD), None);
      var slot: (Key, Option<Value>) := (SlotKey(cfg, 0), Some(data));
      && TakeOne(cfg, encodeHead, []) == Read(head.0)
      && TakeOne(cfg, encodeHead, [head]) == Read(slot.0)
      && TakeOne(cfg, encodeHead, [head, slot])
           == Finish(RollupTx([Eq(head.0, head.1), Eq(slot.0, slot.1)], [encodeHead(1)], []))
  {
    hide EncodeU32, DecodeU32, QueueKey;
    assert TookHead(cfg, (QueueKey(cfg, HEAD), None)) == Some(0);
  }

  lemma TakeOneAccepted(cfg: Config, c: Chain, who: Account, name: H256, tx: RollupTx, raw: Bytes, data: Value)
    requires cfg.Valid() && QueueOk(cfg, c.states, name)
    requires c.submitters == map[name := who] && cfg.decodeAction(raw) == Some(SetQueueHead(1))
    requires HeadOf(cfg, c.states, name) == 0 && TailOf(cfg, c.states, name) == 1
    requires Get(c.states, name, QueueKey(cfg, HEAD)) == None && Get(c.states, name, SlotKey(cfg, 0)) == Some(data)
    requires tx == RollupTx([Eq(QueueKey(cfg, HEAD), None), Eq(SlotKey(cfg, 0), Some(data))], [raw], [])
    ensures Try(cfg, c, Submit(who, name, tx)).Ok?
    ensures LastHead(cfg, tx.actions) == Some(1)
  {
    hide EncodeU32, DecodeU32, QueueKey, HeadOf, TailOf, QueueOk, SetHead;
    assert tx.actions[..0] == [];
    assert ApplyUpdates(c.states, name, []) == c.states;
    SetHeadDrops(cfg, c.states, name, 1);
    assert ExecActions(cfg, c, name, who, []) == Ok(c);
  }
}
