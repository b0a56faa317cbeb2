/** The pallets as they run: storage updated in place, loops over conditions, updates, actions
    and queue slots, and a transactional wrapper that restores storage on error. */
module Runtime {
  import opened Primitives
  import opened Storage
  import opened Queue
  import opened Anchor
  import opened Outcomes

  class Pallets {
    const cfg: Config
    var submitters: map<H256, Account>
    var states: States
    var feeds: map<(Account, Bytes), ApiFeed>
    var requests: map<H256, Request>
    var feedData: map<(Account, Request), Value>

    constructor (cfg: Config)
      ensures this.cfg == cfg && State() == GENESIS
    {
      this.cfg := cfg;
      submitters, states, feeds, requests, feedData := map[], map[], map[], map[], map[];
    }

    function State(): Chain
      reads this
    {
      Chain(submitters, states, feeds, requests, feedData)
    }

    /** What a transactional call leaves behind. */
    ghost function After(before: Chain, r: Result<Chain, Error>): Chain {
      match r case Ok(c) => c case Err(_) => before
    }

    method Restore(saved: Chain)
      modifies this
      ensures State() == saved
    {
      submitters, states, feeds, requests, feedData :=
        saved.submitters, saved.states, saved.feeds, saved.requests, saved.feedData;
    }

    method ClaimName(who: Account, name: H256) returns (r: Result<(), Error>)
      modifies this
      ensures State() == After(old(State()), Anchor.ClaimName(old(State()), who, name))
      ensures r.Ok? <==> name !in old(submitters)
      ensures r.Err? ==> r.error == NameAlreadyClaimed
    {
      if name in submitters {
        return Err(NameAlreadyClaimed);
      }
      submitters := submitters[name := who];
      r := Ok(());
    }

    // -------------------------------------------------------------- queue

    method PushMessage(name: H256, data: Value) returns (r: Result<nat, Error>)
      requires cfg.Valid()
      modifies this`states
      ensures match Queue.PushMessage(cfg, old(State()), name, data)
        case Ok((st, id)) => r == Ok(id) && states == st
        case Err(e) => r == Err(e) && states == old(states)
      ensures r.Ok? <==> HasRoom(cfg, old(State()), name)
      ensures r.Ok? ==> r.value == TailOf(cfg, old(states), name)
      ensures r.Err? ==> PushFault(cfg, old(State()), name, r.error)
      ensures r.Ok? ==>
        var tail := TailOf(cfg, old(states), name);
        && Get(states, name, SlotKey(cfg, tail)) == Some(data)
        && forall n: H256, k: Key | n != name || (k != SlotKey(cfg, tail) && k != QueueKey(cfg, TAIL)) ::
             Get(states, n, k) == Get(old(states), n, k)
    {
      PushIff(cfg, State(), name, data);
      if HasRoom(cfg, State(), name) {
        QueueKeysDistinct(cfg, TailOf(cfg, states, name), 0);
        forall n: H256, k: Key {
          PushStores(cfg, State(), name, data, n, k);
        }
      }
      if name !in submitters {
        return Err(NameNotExist);
      }
      var tail, head := ReadU32(cfg, states, name, TAIL), ReadU32(cfg, states, name, HEAD);
      if tail.None? || head.None? {
        return Err(Trap);
      }
      if SaturatingSub(tail.value, head.value) >= cfg.capacity {
        return Err(QueueIsFull);
      }
      var end := tail.value;
      states := states[(name, SlotKey(cfg, end)) := data];
      states := states[(name, QueueKey(cfg, TAIL)) := EncodeU32((end + 1) % U32_LIMIT)];
      r := Ok(end);
    }

    /** Deletes the consumed slots one by one, then stores the new head. */
    method QueueHeadSet(name: H256, index: nat) returns (r: Result<(), Error>)
      requires cfg.Valid()
      modifies this`states
      ensures match SetHead(cfg, old(states), name, index)
        case Ok(st) => r == Ok(()) && states == st
        case Err(e) => r == Err(e) && states == old(states)
      ensures r.Ok? <==>
        && ReadU32(cfg, old(states), name, HEAD).Some? && ReadU32(cfg, old(states), name, TAIL).Some?
        && HeadOf(cfg, old(states), name) <= index <= TailOf(cfg, old(states), name)
      ensures r.Ok? ==> Get(states, name, QueueKey(cfg, HEAD)) == Some(EncodeU32(index))
    {
      var head, tail := ReadU32(cfg, states, name, HEAD), ReadU32(cfg, states, name, TAIL);
      if head.None? || tail.None? {
        return Err(Trap);
      }
      if !(head.value <= index <= tail.value) {
        return Err(InvalidQueueHead);
      }
      for i := head.value to index
        invariant states == RemoveSlots(cfg, old(states), name, head.value, i)
      {
        states := states - {(name, SlotKey(cfg, i))};
      }
      states := states[(name, QueueKey(cfg, HEAD)) := EncodeU32(index)];
      r := Ok(());
    }

    // -------------------------------------------------------------- oracle

    method OnResponse(name: H256, who: Account, data: Bytes) returns (r: Result<(), Error>)
      modifies this`feedData
      ensures match Anchor.OnResponse(cfg, old(State()), name, who, data)
        case Ok(c) => r == Ok(()) && State() == c
        case Err(e) => r == Err(e) && State() == old(State())
    {
      var decoded := cfg.decodeResponse(data);
      if decoded.None? {
        return Err(FailedToDecodeResponse);
      }
      var resp := decoded.value;
      if resp.contractId != name {
        return Err(FailedToAuthenticateResponse);
      }
      if resp.requestId !in requests {
        return Err(FailedToGetFeedRequest);
      }
      feedData := feedData[(who, requests[resp.requestId]) := resp.responseData];
      r := Ok(());
    }

    method RequestBody(who: Account, feedKey: Bytes, nonce: nat, requestId: H256) returns (r: Result<(), Error>)
      requires cfg.Valid()
      modifies this
      ensures match MakeRequest(cfg, old(State()), who, feedKey, nonce, requestId)
        case Ok((c, _)) => r == Ok(()) && State() == c
        case Err(e) => r == Err(e)
    {
      if (who, feedKey) !in feeds {
        return Err(FailedToGetApiFeed);
      }
      var feed := feeds[(who, feedKey)];
      if feed.status != Active {
        return Err(ApiFeedNotActive);
      }
      var message := RequestMessage(cfg, requestId, feed);
      if |message| > 2048 {
        return Err(FailedToEncodeData);
      }
      requests := requests[requestId := Storage.Request.Request(feedKey, who, nonce, message)];
      if submitters == map[] {
        return Err(FailedToFindOracleFeeds);
      }
      var pushed := PushMessage(cfg.lastKey(submitters.Keys), message);
      match pushed {
        case Ok(_) => r := Ok(());
        case Err(Trap) => r := Err(Trap);
        case Err(_) => r := Err(FailedToPushMessageToAnchor);
      }
    }

    /** The request is stored before the push is tried, so a failed push has to be undone. */
    method Request(who: Account, feedKey: Bytes, nonce: nat, requestId: H256) returns (r: Result<(), Error>)
      requires cfg.Valid()
      modifies this
      ensures match MakeRequest(cfg, old(State()), who, feedKey, nonce, requestId)
        case Ok((c, _)) => r == Ok(()) && State() == c
        case Err(e) => r == Err(e) && State() == old(State())
      ensures r.Ok? <==> RequestFits(cfg, old(State()), who, feedKey, requestId)
      ensures r.Err? ==> RequestFault(cfg, old(State()), who, feedKey, requestId, r.error)
      ensures r.Ok? ==>
        var sent := Sent(cfg, old(State()), who, feedKey, requestId);
        var name := cfg.lastKey(submitters.Keys);
        && requests == old(requests)[requestId := Storage.Request.Request(feedKey, who, nonce, sent)]
        && Get(states, name, SlotKey(cfg, TailOf(cfg, old(states), name))) == Some(sent)
    {
      hide RequestFits, RequestFault, MakeRequest;
      RequestIff(cfg, State(), who, feedKey, nonce, requestId);
      if MakeRequest(cfg, State(), who, feedKey, nonce, requestId).Ok? {
        RequestLeaves(cfg, State(), who, feedKey, nonce, requestId);
      }
      var saved := State();
      r := RequestBody(who, feedKey, nonce, requestId);
      if r.Err? {
        Restore(saved);
      }
    }

    // -------------------------------------------------------------- rollup

    method CheckConds(name: H256, conds: seq<Cond>) returns (ok: bool)
      ensures ok <==> CondsHold(states, name, conds)
    {
      for i := 0 to |conds|
        invariant CondsHold(states, name, conds[..i])
      {
        if Get(states, name, conds[i].key) != conds[i].value {
          return false;
        }
        PrefixStep(conds, i);
      }
      assert conds[..|conds|] == conds;
      ok := true;
    }

    method ApplyUpdates(name: H256, updates: seq<(Key, Option<Value>)>)
      modifies this`states
      ensures states == Anchor.ApplyUpdates(old(states), name, updates)
    {
      for i := 0 to |updates|
        invariant states == Anchor.ApplyUpdates(old(states), name, updates[..i])
      {
        PrefixStep(updates, i);
        var (key, value) := updates[i];
        match value {
          case Some(v) => states := states[(name, key) := v];
          case None => states := states - {(name, key)};
        }
      }
      assert updates[..|updates|] == updates;
    }

    method ExecActions(name: H256, who: Account, actions: seq<Bytes>) returns (r: Result<(), Error>)
      requires cfg.Valid()
      modifies this`states, this`feedData
      ensures match Anchor.ExecActions(cfg, old(State()), name, who, actions)
        case Ok(c) => r == Ok(()) && State() == c
        case Err(e) => r == Err(e)
    {
      for i := 0 to |actions|
        invariant Anchor.ExecActions(cfg, old(State()), name, who, actions[..i]) == Ok(State())
      {
        PrefixStep(actions, i);
        ghost var before := State();
        match cfg.decodeAction(actions[i]) {
          case None => r := Err(FailedToDecodeAction);
          case Some(Reply(data)) => r := OnResponse(name, who, data);
          case Some(SetQueueHead(head)) => r := QueueHeadSet(name, head);
        }
        assert match ExecAction(cfg, before, name, who, actions[i])
          case Ok(c) => r == Ok(()) && State() == c
          case Err(e) => r == Err(e);
        if r.Err? {
          FirstFailureDecides(cfg, old(State()), name, who, actions, i + 1);
          return;
        }
      }
      assert actions[..|actions|] == actions;
      r := Ok(());
    }

    method Rollup(who: Account, name: H256, tx: RollupTx) returns (r: Result<(), Error>)
      requires cfg.Valid()
      modifies this
      ensures match Anchor.Rollup(cfg, old(State()), who, name, tx)
        case Ok(c) => r == Ok(()) && State() == c
        case Err(e) => r == Err(e) && State() == old(State())
      ensures r.Ok? <==> RollupFits(cfg, old(State()), who, name, tx)
      ensures r.Err? ==> RollupFault(cfg, old(State()), who, name, tx, r.error)
    {
      hide RollupFits, RollupFault;
      RollupIff(cfg, State(), who, name, tx);
      if name !in submitters {
        return Err(NameNotExist);
      }
      if submitters[name] != who {
        return Err(NotOwner);
      }
      var met := CheckConds(name, tx.conds);
      if !met {
        return Err(CondNotMet);
      }
      var saved := State();
      ApplyUpdates(name, tx.updates);
      r := ExecActions(name, who, tx.actions);
      if r.Err? {
        Restore(saved);
      }
    }

    // -------------------------------------------------------------- runs

    /** The calls take exactly the steps that runs are made of. */
    method Perform(step: Step)
      requires cfg.Valid()
      modifies this
      ensures State() == Next(cfg, old(State()), step)
    {
      match step {
        case Claim(who, name) => var _ := ClaimName(who, name);
        case Submit(who, name, tx) => var _ := Rollup(who, name, tx);
        case Push(name, data) => var _ := PushMessage(name, data);
        case SetFeed(who, key, Some(feed)) => feeds := feeds[(who, key) := feed];
        case SetFeed(who, key, None) => feeds := feeds - {(who, key)};
        case Ask(who, key, nonce, id) => var _ := Request(who, key, nonce, id);
      }
    }
  }
}
