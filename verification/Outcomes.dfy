/** When each call of the anchor and oracle pallets is accepted, with which error it is refused
    otherwise, and what it writes and leaves alone. */
module Outcomes {
  import opened Primitives
  import opened Storage
  import opened Queue
  import opened Anchor
  import opened QueueRuns
  import opened OracleRuns
  import Isolation

  // ---------------------------------------------------------------- rollups

  predicate Owns(c: Chain, who: Account, name: H256) {
    name in c.submitters && c.submitters[name] == who
  }

  /** The head that action `i` finds: the last one that an action before it set, or what the
      updates leave. */
  function HeadFound(cfg: Config, st: States, name: H256, tx: RollupTx, i: nat): Option<nat>
    requires cfg.Valid() && i <= |tx.actions|
  {
    match LastHead(cfg, tx.actions[..i])
    case Some(h) => Some(h)
    case None => Reading(Effective(st, name, tx.updates, QueueKey(cfg, HEAD)))
  }

  function TailFound(cfg: Config, st: States, name: H256, tx: RollupTx): Option<nat>
    requires cfg.Valid()
  {
    Reading(Effective(st, name, tx.updates, QueueKey(cfg, TAIL)))
  }

  /** Action `i` decodes; a reply decodes, names this contract and a stored request; a head lies
      between the head it finds and the tail. */
  predicate ActionFits(cfg: Config, c: Chain, name: H256, tx: RollupTx, i: nat)
    requires cfg.Valid() && i < |tx.actions|
  {
    var action := cfg.decodeAction(tx.actions[i]);
    && action.Some?
    && (action.value.Reply? ==>
          && cfg.decodeResponse(action.value.data).Some?
          && cfg.decodeResponse(action.value.data).value.contractId == name
          && cfg.decodeResponse(action.value.data).value.requestId in c.requests)
    && (action.value.SetQueueHead? ==>
          && HeadFound(cfg, c.states, name, tx, i).Some? && TailFound(cfg, c.states, name, tx).Some?
          && HeadFound(cfg, c.states, name, tx, i).value <= action.value.head
          && action.value.head <= TailFound(cfg, c.states, name, tx).value)
  }

  /** Action `i` is at fault in the way that `e` reports. */
  predicate ActionFault(cfg: Config, c: Chain, name: H256, tx: RollupTx, i: nat, e: Error)
    requires cfg.Valid() && i < |tx.actions|
  {
    var action := cfg.decodeAction(tx.actions[i]);
    var response :=
      if action.Some? && action.value.Reply? then cfg.decodeResponse(action.value.data) else None;
    var head, tail := HeadFound(cfg, c.states, name, tx, i), TailFound(cfg, c.states, name, tx);
    match e
    case FailedToDecodeAction => action.None?
    case FailedToDecodeResponse => action.Some? && action.value.Reply? && response.None?
    case FailedToAuthenticateResponse => response.Some? && response.value.contractId != name
    case FailedToGetFeedRequest =>
      response.Some? && response.value.contractId == name && response.value.requestId !in c.requests
    case InvalidQueueHead =>
      && action.Some? && action.value.SetQueueHead? && head.Some? && tail.Some?
      && (action.value.head < head.value || tail.value < action.value.head)
    case Trap => action.Some? && action.value.SetQueueHead? && (head.None? || tail.None?)
    case _ => false
  }

  /** Some action is the first that does not fit, and `e` is its fault. */
  ghost predicate FirstFault(cfg: Config, c: Chain, name: H256, tx: RollupTx, n: nat, e: Error)
    requires cfg.Valid() && n <= |tx.actions|
  {
    exists i | 0 <= i < n ::
      && ActionFault(cfg, c, name, tx, i, e)
      && forall j | 0 <= j < i :: ActionFits(cfg, c, name, tx, j)
  }

  lemma ActionIff(cfg: Config, c: Chain, c': Chain, name: H256, who: Account, tx: RollupTx, i: nat)
    requires cfg.Valid() && i < |tx.actions| && c'.requests == c.requests
    requires ReadU32(cfg, c'.states, name, HEAD) == HeadFound(cfg, c.states, name, tx, i)
    requires ReadU32(cfg, c'.states, name, TAIL) == TailFound(cfg, c.states, name, tx)
    ensures var r := ExecAction(cfg, c', name, who, tx.actions[i]);
      && (r.Ok? <==> ActionFits(cfg, c, name, tx, i))
      && forall e :: r == Err(e) <==> ActionFault(cfg, c, name, tx, i, e)
  {
    hide HeadFound, TailFound, ReadU32, RemoveSlots;
  }

  /** The heads that accepted actions leave. */
  lemma FoundAfter(cfg: Config, c: Chain, name: H256, who: Account, tx: RollupTx, n: nat)
    requires cfg.Valid() && n <= |tx.actions|
    ensures var c1 := c.(states := ApplyUpdates(c.states, name, tx.updates));
      var r := ExecActions(cfg, c1, name, who, tx.actions[..n]);
      r.Ok? ==>
        && r.value.requests == c.requests
        && ReadU32(cfg, r.value.states, name, HEAD) == HeadFound(cfg, c.states, name, tx, n)
        && ReadU32(cfg, r.value.states, name, TAIL) == TailFound(cfg, c.states, name, tx)
  {
    hide ExecActions, ApplyUpdates, LastHead, Reading, QueueKey;
    var c1 := c.(states := ApplyUpdates(c.states, name, tx.updates));
    Isolation.UpdatesApplied(c.states, name, tx.updates, QueueKey(cfg, HEAD));
    Isolation.UpdatesApplied(c.states, name, tx.updates, QueueKey(cfg, TAIL));
    if ExecActions(cfg, c1, name, who, tx.actions[..n]).Ok? {
      ActionsAdvance(cfg, c1, name, who, tx.actions[..n]);
      Isolation.ActionsTouch(cfg, c1, name, who, tx.actions[..n]);
    }
  }

  lemma {:induction false} ActionsIff(cfg: Config, c: Chain, name: H256, who: Account, tx: RollupTx, n: nat)
    requires cfg.Valid() && n <= |tx.actions|
    ensures var c1 := c.(states := ApplyUpdates(c.states, name, tx.updates));
      var r := ExecActions(cfg, c1, name, who, tx.actions[..n]);
      && (r.Ok? <==> forall i | 0 <= i < n :: ActionFits(cfg, c, name, tx, i))
      && forall e :: r == Err(e) <==> FirstFault(cfg, c, name, tx, n, e)
  {
    hide ApplyUpdates, ExecAction, ActionFits, ActionFault, ReadU32, HeadFound, TailFound;
    if n > 0 {
      var c1 := c.(states := ApplyUpdates(c.states, name, tx.updates));
      var m := n - 1;
      ActionsIff(cfg, c, name, who, tx, m);
      PrefixStep(tx.actions, m);
      var r := ExecActions(cfg, c1, name, who, tx.actions[..m]);
      FoundAfter(cfg, c, name, who, tx, m);
      if r.Ok? {
        ActionIff(cfg, c, r.value, name, who, tx, m);
      }
      FaultStep(cfg, c, name, tx, m);
    }
  }

  /** An action at fault does not fit, so the first fault is the only one. */
  lemma FaultStep(cfg: Config, c: Chain, name: H256, tx: RollupTx, m: nat)
    requires cfg.Valid() && m < |tx.actions|
    ensures forall e :: FirstFault(cfg, c, name, tx, m + 1, e) <==>
      || FirstFault(cfg, c, name, tx, m, e)
      || (ActionFault(cfg, c, name, tx, m, e) && forall j | 0 <= j < m :: ActionFits(cfg, c, name, tx, j))
    ensures forall e | FirstFault(cfg, c, name, tx, m, e) :: exists j | 0 <= j < m :: !ActionFits(cfg, c, name, tx, j)
  {
    hide HeadFound, TailFound;
    assert forall i, e | 0 <= i <= m && ActionFault(cfg, c, name, tx, i, e) :: !ActionFits(cfg, c, name, tx, i);
  }

  predicate CondsMet(c: Chain, name: H256, tx: RollupTx) {
    forall i | 0 <= i < |tx.conds| :: Get(c.states, name, tx.conds[i].key) == tx.conds[i].value
  }

  /** The submitter owns the name, every condition matches the store, and every action fits. */
  predicate RollupFits(cfg: Config, c: Chain, who: Account, name: H256, tx: RollupTx)
    requires cfg.Valid()
  {
    && Owns(c, who, name)
    && CondsMet(c, name, tx)
    && forall i | 0 <= i < |tx.actions| :: ActionFits(cfg, c, name, tx, i)
  }

  ghost predicate RollupFault(cfg: Config, c: Chain, who: Account, name: H256, tx: RollupTx, e: Error)
    requires cfg.Valid()
  {
    match e
    case NameNotExist => name !in c.submitters
    case NotOwner => name in c.submitters && c.submitters[name] != who
    case CondNotMet => Owns(c, who, name) && !CondsMet(c, name, tx)
    case _ => Owns(c, who, name) && CondsMet(c, name, tx) && FirstFault(cfg, c, name, tx, |tx.actions|, e)
  }

  /** Whether a rollup is accepted, and the error with which it is refused otherwise, can be read off
      the transaction and the state before it. */
  lemma RollupIff(cfg: Config, c: Chain, who: Account, name: H256, tx: RollupTx)
    requires cfg.Valid()
    ensures var r := Rollup(cfg, c, who, name, tx);
      && (r.Ok? <==> RollupFits(cfg, c, who, name, tx))
      && forall e :: r == Err(e) <==> RollupFault(cfg, c, who, name, tx, e)
  {
    hide ExecActions, ApplyUpdates, ActionFits;
    ActionsIff(cfg, c, name, who, tx, |tx.actions|);
    assert tx.actions[..|tx.actions|] == tx.actions;
    NoSuchFault(cfg, c, name, tx);
  }

  lemma NoSuchFault(cfg: Config, c: Chain, name: H256, tx: RollupTx)
    requires cfg.Valid()
    ensures forall e | e == NameNotExist || e == NotOwner || e == CondNotMet ::
      !FirstFault(cfg, c, name, tx, |tx.actions|, e)
  {
    hide HeadFound, TailFound, ActionFits;
  }

  /** Over every run, only the account that claimed a name first has a rollup accepted under it. */
  lemma AcceptedByClaimer(cfg: Config, steps: seq<Step>, k: nat) returns (i: nat)
    requires cfg.Valid() && k < |steps| && steps[k].Submit? && Try(cfg, Run(cfg, steps[..k]), steps[k]).Ok?
    ensures i < k && steps[i] == Claim(steps[k].who, steps[k].name)
    ensures forall j | 0 <= j < i :: !(steps[j].Claim? && steps[j].name == steps[k].name)
  {
    hide ExecActions, ApplyUpdates, CondsHold, Run;
    var c := Run(cfg, steps[..k]);
    i := OwnerOrigin(cfg, steps[..k], steps[k].name);
  }

  // ---------------------------------------------------------------- requests

  /** What a request sends: its id, then the feed's url and path. */
  function Sent(cfg: Config, c: Chain, who: Account, feedKey: Bytes, id: H256): Bytes
    requires (who, feedKey) in c.feeds
  {
    id + cfg.encodeFeed(c.feeds[(who, feedKey)].url, c.feeds[(who, feedKey)].path)
  }

  /** A message can be pushed to `name`: it is claimed, both indices decode, and there is room. */
  predicate HasRoom(cfg: Config, c: Chain, name: H256)
    requires cfg.Valid()
  {
    && name in c.submitters
    && ReadU32(cfg, c.states, name, HEAD).Some? && ReadU32(cfg, c.states, name, TAIL).Some?
    && Max(0, TailOf(cfg, c.states, name) - HeadOf(cfg, c.states, name)) < cfg.capacity
  }

  predicate PushFault(cfg: Config, c: Chain, name: H256, e: Error)
    requires cfg.Valid()
  {
    var decodes := ReadU32(cfg, c.states, name, HEAD).Some? && ReadU32(cfg, c.states, name, TAIL).Some?;
    match e
    case NameNotExist => name !in c.submitters
    case Trap => name in c.submitters && !decodes
    case QueueIsFull => name in c.submitters && decodes && !HasRoom(cfg, c, name)
    case _ => false
  }

  lemma PushIff(cfg: Config, c: Chain, name: H256, data: Value)
    requires cfg.Valid()
    ensures var r := PushMessage(cfg, c, name, data);
      && (r.Ok? <==> HasRoom(cfg, c, name))
      && (r.Ok? ==> r.value.1 == TailOf(cfg, c.states, name))
      && forall e :: r == Err(e) <==> PushFault(cfg, c, name, e)
  {
    hide Reading, EncodeU32;
  }

  /** The feed is there and active, the message fits, and the last name of the owner map has room. */
  predicate RequestFits(cfg: Config, c: Chain, who: Account, feedKey: Bytes, id: H256)
    requires cfg.Valid()
  {
    && (who, feedKey) in c.feeds
    && c.feeds[(who, feedKey)].status == Active
    && |Sent(cfg, c, who, feedKey, id)| <= 2048
    && c.submitters.Keys != {}
    && HasRoom(cfg, c, cfg.lastKey(c.submitters.Keys))
  }

  predicate RequestFault(cfg: Config, c: Chain, who: Account, feedKey: Bytes, id: H256, e: Error)
    requires cfg.Valid()
  {
    var known := (who, feedKey) in c.feeds;
    var active := known && c.feeds[(who, feedKey)].status == Active;
    var sendable := active && |Sent(cfg, c, who, feedKey, id)| <= 2048;
    var name := cfg.lastKey(c.submitters.Keys);
    match e
    case FailedToGetApiFeed => !known
    case ApiFeedNotActive => known && !active
    case FailedToEncodeData => active && !sendable
    case FailedToFindOracleFeeds => sendable && c.submitters.Keys == {}
    case Trap => sendable && PushFault(cfg, c, name, Trap)
    case FailedToPushMessageToAnchor =>
      && sendable && c.submitters.Keys != {}
      && (PushFault(cfg, c, name, NameNotExist) || PushFault(cfg, c, name, QueueIsFull))
    case _ => false
  }

  /** Whether a request is accepted, the error with which it is refused otherwise, and where its
      message goes, can be read off the state before it. */
  lemma RequestIff(cfg: Config, c: Chain, who: Account, feedKey: Bytes, nonce: nat, id: H256)
    requires cfg.Valid()
    ensures var r := MakeRequest(cfg, c, who, feedKey, nonce, id);
      && (r.Ok? <==> RequestFits(cfg, c, who, feedKey, id))
      && (r.Ok? ==> r.value.1 == cfg.lastKey(c.submitters.Keys))
      && forall e :: r == Err(e) <==> RequestFault(cfg, c, who, feedKey, id, e)
  {
    hide PushMessage, HasRoom, ReadU32;
    if (who, feedKey) in c.feeds && |Sent(cfg, c, who, feedKey, id)| <= 2048 {
      PushIff(cfg, c, cfg.lastKey(c.submitters.Keys), RequestMessage(cfg, id, c.feeds[(who, feedKey)]));
    }
    assert c.submitters == map[] <==> c.submitters.Keys == {};
  }

  /** An accepted request stores, under its id, what it sends, and appends exactly that to the
      queue of the name it goes to. */
  lemma RequestSends(cfg: Config, c: Chain, who: Account, feedKey: Bytes, nonce: nat, id: H256)
    requires cfg.Valid() && MakeRequest(cfg, c, who, feedKey, nonce, id).Ok?
    requires var name := cfg.lastKey(c.submitters.Keys);
      QueueOk(cfg, c.states, name) && TailOf(cfg, c.states, name) + 1 < U32_LIMIT
    ensures var (c', name) := MakeRequest(cfg, c, who, feedKey, nonce, id).value;
      && name == cfg.lastKey(c.submitters.Keys)
      && c'.requests == c.requests[id := Request(feedKey, who, nonce, Sent(cfg, c, who, feedKey, id))]
      && QueueOk(cfg, c'.states, name)
      && Pending(cfg, c'.states, name) == Pending(cfg, c.states, name) + [Sent(cfg, c, who, feedKey, id)]
      && (c'.submitters, c'.feeds, c'.feedData) == (c.submitters, c.feeds, c.feedData)
  {
    hide QueueOk, Pending, HeadOf, TailOf, ReadU32;
    PushOnQueue(cfg, c, cfg.lastKey(c.submitters.Keys), RequestMessage(cfg, id, c.feeds[(who, feedKey)]),
                cfg.lastKey(c.submitters.Keys));
  }

  /** The same on the store, whatever state the queue is in: the message is in the tail's slot. */
  lemma RequestLeaves(cfg: Config, c: Chain, who: Account, feedKey: Bytes, nonce: nat, id: H256)
    requires cfg.Valid() && MakeRequest(cfg, c, who, feedKey, nonce, id).Ok?
    ensures RequestFits(cfg, c, who, feedKey, id)
    ensures var c', name := MakeRequest(cfg, c, who, feedKey, nonce, id).value.0, cfg.lastKey(c.submitters.Keys);
      && c'.submitters == c.submitters
      && c'.requests == c.requests[id := Request(feedKey, who, nonce, Sent(cfg, c, who, feedKey, id))]
      && Get(c'.states, name, SlotKey(cfg, TailOf(cfg, c.states, name))) == Some(Sent(cfg, c, who, feedKey, id))
  {
    hide PushMessage, RequestFault, EncodeU32;
    var name := cfg.lastKey(c.submitters.Keys);
    RequestIff(cfg, c, who, feedKey, nonce, id);
    PushStores(cfg, c, name, RequestMessage(cfg, id, c.feeds[(who, feedKey)]), name,
               SlotKey(cfg, TailOf(cfg, c.states, name)));
    QueueKeysDistinct(cfg, TailOf(cfg, c.states, name), 0);
  }

  // ---------------------------------------------------------------- what a step writes

  /** An accepted rollup of the owner writes its last update for the key; nothing else writes a key
      outside the queue, under any name. */
  lemma StepStores(cfg: Config, c: Chain, step: Step, name: H256, key: Key)
    requires cfg.Valid() && !IsQueueKey(cfg, key)
    ensures Get(Next(cfg, c, step).states, name, key)
         == if step.Submit? && step.name == name && Try(cfg, c, step).Ok?
            then Effective(c.states, name, step.tx.updates, key) else Get(c.states, name, key)
    ensures step.Submit? && Try(cfg, c, step).Ok? ==> Owns(c, step.who, step.name)
  {
    hide Rollup, IsQueueKey, PushMessage, HasRoom, EncodeU32, ReadU32;
    assert IsQueueKey(cfg, QueueKey(cfg, TAIL)) by { QueueKeysAre(cfg, QueueKey(cfg, TAIL)); }
    match step {
      case Submit(who, n, tx) =>
        if Try(cfg, c, step).Ok? {
          RollupIff(cfg, c, who, n, tx);
          if n == name {
            Isolation.RollupStores(cfg, c, who, n, tx, key);
          } else {
            Isolation.RollupTouches(cfg, c, who, n, tx);
          }
        }
      case Push(n, data) =>
        PushIff(cfg, c, n, data);
        if Try(cfg, c, step).Ok? {
          PushStores(cfg, c, n, data, name, key);
          QueueKeysDistinct(cfg, TailOf(cfg, c.states, n), 0);
        }
      case Ask(who, feedKey, nonce, id) =>
        if Try(cfg, c, step).Ok? {
          var message := RequestMessage(cfg, id, c.feeds[(who, feedKey)]);
          var n := cfg.lastKey(c.submitters.Keys);
          PushIff(cfg, c, n, message);
          PushStores(cfg, c, n, message, name, key);
          QueueKeysDistinct(cfg, TailOf(cfg, c.states, n), 0);
        }
      case _ =>
    }
  }

  /** What every key of every name holds after a push: the message is in the tail's slot, the tail is
      one further, and nothing else changes. */
  lemma PushStores(cfg: Config, c: Chain, name: H256, data: Value, n: H256, key: Key)
    requires cfg.Valid() && HasRoom(cfg, c, name)
    ensures var r, tail := PushMessage(cfg, c, name, data), TailOf(cfg, c.states, name);
      && r.Ok?
      && Get(r.value.0, n, key)
           == if n == name && key == QueueKey(cfg, TAIL) then Some(EncodeU32((tail + 1) % U32_LIMIT))
              else if n == name && key == SlotKey(cfg, tail) then Some(data)
              else Get(c.states, n, key)
  {
    hide EncodeU32, ReadU32;
    PushIff(cfg, c, name, data);
    QueueKeysDistinct(cfg, TailOf(cfg, c.states, name), 0);
  }

  /** What each call can change besides the store: names by `claim_name` only, feeds by the registry
      only, requests by `request` only, responses by rollups only. */
  lemma StepKeeps(cfg: Config, c: Chain, step: Step)
    requires cfg.Valid()
    ensures var c' := Next(cfg, c, step);
      && c'.submitters
           == (if step.Claim? && step.name !in c.submitters then c.submitters[step.name := step.who] else c.submitters)
      && c'.requests
           == (if step.Ask? && Try(cfg, c, step).Ok?
               then c.requests[step.requestId := Request(step.feedKey, step.who, step.nonce,
                                                         Sent(cfg, c, step.who, step.feedKey, step.requestId))]
               else c.requests)
      && (forall a: Account, k: Bytes ::
            Feed(c'.feeds, a, k)
              == if step.SetFeed? && step.who == a && step.feedKey == k then step.feed else Feed(c.feeds, a, k))
      && (forall a: Account, r: Request ::
            Isolation.Fed(c'.feedData, a, r)
              == if step.Submit? && Try(cfg, c, step).Ok? && step.who == a
                    && Isolation.LastAnswer(cfg, c.requests, step.name, step.tx.actions, r).Some?
                 then Isolation.LastAnswer(cfg, c.requests, step.name, step.tx.actions, r)
                 else Isolation.Fed(c.feedData, a, r))
  {
    hide Rollup, PushMessage;
    if step.Submit? && Try(cfg, c, step).Ok? {
      Isolation.RollupTouches(cfg, c, step.who, step.name, step.tx);
      forall r: Request
        ensures Isolation.Fed(Next(cfg, c, step).feedData, step.who, r)
          == match Isolation.LastAnswer(cfg, c.requests, step.name, step.tx.actions, r)
             case Some(v) => Some(v)
             case None => Isolation.Fed(c.feedData, step.who, r)
      {
        Isolation.RollupAnswers(cfg, c, step.who, step.name, step.tx, r);
      }
    }
  }

  function Feed(feeds: map<(Account, Bytes), ApiFeed>, who: Account, key: Bytes): Option<ApiFeed> {
    if (who, key) in feeds then Some(feeds[(who, key)]) else None
  }

  // ---------------------------------------------------------------- what a run leaves

  /** The last value that an accepted rollup of `name` wrote to `key`. */
  function Written(cfg: Config, steps: seq<Step>, name: H256, key: Key): Option<Value>
    requires cfg.Valid()
  {
    if steps == [] then None
    else
      var n := |steps| - 1;
      var before := Written(cfg, steps[..n], name, key);
      if steps[n].Submit? && steps[n].name == name && Try(cfg, Run(cfg, steps[..n]), steps[n]).Ok? then
        match Isolation.LastUpdate(steps[n].tx.updates, key) case Some(v) => v case None => before
      else before
  }

  /** Over every run, a key outside the queue holds what an accepted rollup of its name wrote last:
      no push, request, claim or rollup of another name touches it. */
  lemma {:induction false} StoreIsWritten(cfg: Config, steps: seq<Step>, name: H256, key: Key)
    requires cfg.Valid() && !IsQueueKey(cfg, key)
    ensures Get(Run(cfg, steps).states, name, key) == Written(cfg, steps, name, key)
  {
    hide Try, Next, IsQueueKey;
    if steps != [] {
      var n := |steps| - 1;
      StoreIsWritten(cfg, steps[..n], name, key);
      StepStores(cfg, Run(cfg, steps[..n]), steps[n], name, key);
    }
  }

  /** Every value stored outside the queue of a name was written, and not overwritten since, by an
      accepted rollup of the account that owns the name, then and now. */
  lemma {:induction false} StoredOrigin(cfg: Config, steps: seq<Step>, name: H256, key: Key) returns (j: nat)
    requires cfg.Valid() && !IsQueueKey(cfg, key) && (name, key) in Run(cfg, steps).states
    ensures j < |steps| && steps[j].Submit? && steps[j].name == name && Try(cfg, Run(cfg, steps[..j]), steps[j]).Ok?
    ensures Owns(Run(cfg, steps), steps[j].who, name)
    ensures Isolation.LastUpdate(steps[j].tx.updates, key) == Some(Some(Run(cfg, steps).states[(name, key)]))
    ensures forall k | j < k < |steps| && steps[k].Submit? && steps[k].name == name
                       && Try(cfg, Run(cfg, steps[..k]), steps[k]).Ok? ::
              Isolation.LastUpdate(steps[k].tx.updates, key) == None
  {
    hide Try, Next, IsQueueKey;
    var n := |steps| - 1;
    var c, step := Run(cfg, steps[..n]), steps[n];
    StepStores(cfg, c, step, name, key);
    StepKeepsRequests(cfg, c, step);
    if step.Submit? && step.name == name && Try(cfg, c, step).Ok? && Isolation.LastUpdate(step.tx.updates, key).Some? {
      j := n;
    } else {
      j := StoredOrigin(cfg, steps[..n], name, key);
      assert steps[..n][..j] == steps[..j];
      forall k | j < k < n ensures steps[..n][..k] == steps[..k] {
      }
    }
  }

  /** The last answer that an accepted rollup submitted by `who` gave to `request`. */
  function Filed(cfg: Config, steps: seq<Step>, who: Account, request: Request): Option<Value>
    requires cfg.Valid()
  {
    if steps == [] then None
    else
      var n := |steps| - 1;
      var c, before := Run(cfg, steps[..n]), Filed(cfg, steps[..n], who, request);
      if steps[n].Submit? && steps[n].who == who && Try(cfg, c, steps[n]).Ok? then
        match Isolation.LastAnswer(cfg, c.requests, steps[n].name, steps[n].tx.actions, request)
        case Some(v) => Some(v)
        case None => before
      else before
  }

  /** Over every run, the response stored for a request is the last that an accepted rollup of the
      account gave to it. */
  lemma {:induction false} ResponseIsFiled(cfg: Config, steps: seq<Step>, who: Account, request: Request)
    requires cfg.Valid()
    ensures Isolation.Fed(Run(cfg, steps).feedData, who, request) == Filed(cfg, steps, who, request)
  {
    hide Try, Next;
    if steps != [] {
      var n := |steps| - 1;
      ResponseIsFiled(cfg, steps[..n], who, request);
      StepKeeps(cfg, Run(cfg, steps[..n]), steps[n]);
    }
  }
}
