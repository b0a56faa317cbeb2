/** What `request`, `on_response`, `claim_name` and `rollup` do to storage. An error carries no
    new storage: every call is transactional. */
module Anchor {
  import opened Primitives
  import opened Storage
  import opened Queue

  // ---------------------------------------------------------------- oracle pallet

  /** The message sent to the contract: the encoded triple (request id, url, path). */
  function RequestMessage(cfg: Config, requestId: H256, feed: ApiFeed): Bytes {
    requestId + cfg.encodeFeed(feed.url, feed.path)
  }

  /** The id at the front of an oracle message. */
  predicate CarriesId(message: Bytes, ids: set<H256>) {
    |message| >= 32 && message[..32] in ids
  }

  /** `requestId` is what the randomness source yields. The value is the new storage and the
      queue the message went to. */
  function MakeRequest(cfg: Config, c: Chain, who: Account, feedKey: Bytes, nonce: nat, requestId: H256)
    : Result<(Chain, H256), Error>
    requires cfg.Valid()
  {
    if (who, feedKey) !in c.feeds then Err(FailedToGetApiFeed)
    else if c.feeds[(who, feedKey)].status != Active then Err(ApiFeedNotActive)
    else
      var message := RequestMessage(cfg, requestId, c.feeds[(who, feedKey)]);
      if |message| > 2048 then Err(FailedToEncodeData)
      else
        var requests := c.requests[requestId := Request(feedKey, who, nonce, message)];
        if c.submitters == map[] then Err(FailedToFindOracleFeeds)
        else
          var name := cfg.lastKey(c.submitters.Keys);
          match PushMessage(cfg, c, name, message)
          case Ok((st, _)) => Ok((c.(requests := requests, states := st), name))
          case Err(Trap) => Err(Trap)
          case Err(_) => Err(FailedToPushMessageToAnchor)
  }

  function OnResponse(cfg: Config, c: Chain, name: H256, who: Account, data: Bytes): Result<Chain, Error> {
    match cfg.decodeResponse(data)
    case None => Err(FailedToDecodeResponse)
    case Some(resp) =>
      if resp.contractId != name then Err(FailedToAuthenticateResponse)
      else if resp.requestId !in c.requests then Err(FailedToGetFeedRequest)
      else Ok(c.(feedData := c.feedData[(who, c.requests[resp.requestId]) := resp.responseData]))
  }

  // ---------------------------------------------------------------- anchor pallet

  function ClaimName(c: Chain, who: Account, name: H256): Result<Chain, Error> {
    if name in c.submitters then Err(NameAlreadyClaimed)
    else Ok(c.(submitters := c.submitters[name := who]))
  }

  predicate CondsHold(st: States, name: H256, conds: seq<Cond>) {
    forall i | 0 <= i < |conds| :: Get(st, name, conds[i].key) == conds[i].value
  }

  function ApplyUpdates(st: States, name: H256, updates: seq<(Key, Option<Value>)>): States {
    if updates == [] then st
    else
      var n := |updates| - 1;
      Put(ApplyUpdates(st, name, updates[..n]), name, updates[n].0, updates[n].1)
  }

  function ExecAction(cfg: Config, c: Chain, name: H256, who: Account, raw: Bytes): Result<Chain, Error>
    requires cfg.Valid()
  {
    match cfg.decodeAction(raw)
    case None => Err(FailedToDecodeAction)
    case Some(Reply(data)) => OnResponse(cfg, c, name, who, data)
    case Some(SetQueueHead(head)) =>
      match SetHead(cfg, c.states, name, head)
      case Ok(st) => Ok(c.(states := st))
      case Err(e) => Err(e)
  }

  /** The actions in order, stopping at the first that fails. */
  function ExecActions(cfg: Config, c: Chain, name: H256, who: Account, actions: seq<Bytes>): Result<Chain, Error>
    requires cfg.Valid()
  {
    if actions == [] then Ok(c)
    else
      var n := |actions| - 1;
      match ExecActions(cfg, c, name, who, actions[..n])
      case Ok(c') => ExecAction(cfg, c', name, who, actions[n])
      case Err(e) => Err(e)
  }

  function Rollup(cfg: Config, c: Chain, who: Account, name: H256, tx: RollupTx): Result<Chain, Error>
    requires cfg.Valid()
  {
    if name !in c.submitters then Err(NameNotExist)
    else if c.submitters[name] != who then Err(NotOwner)
    else if !CondsHold(c.states, name, tx.conds) then Err(CondNotMet)
    else ExecActions(cfg, c.(states := ApplyUpdates(c.states, name, tx.updates)), name, who, tx.actions)
  }

  /** A failing prefix of actions fails the whole list with the same error. */
  lemma {:induction false} FirstFailureDecides(
    cfg: Config, c: Chain, name: H256, who: Account, actions: seq<Bytes>, n: nat)
    requires cfg.Valid() && n <= |actions|
    requires ExecActions(cfg, c, name, who, actions[..n]).Err?
    ensures ExecActions(cfg, c, name, who, actions) == ExecActions(cfg, c, name, who, actions[..n])
    decreases |actions|
  {
    if n == |actions| {
      assert actions[..n] == actions;
    } else {
      var m := |actions| - 1;
      assert actions[..m][..n] == actions[..n];
      FirstFailureDecides(cfg, c, name, who, actions[..m], n);
    }
  }

  // ---------------------------------------------------------------- runs

  /** One call into the pallets. `SetFeed` stands for the registry, whose activation of a feed
      lies outside the pallets; `Push` for any other pallet that pushes a message. */
  datatype Step =
    | Claim(who: Account, name: H256)
    | Submit(who: Account, name: H256, tx: RollupTx)
    | Push(name: H256, data: Value)
    | SetFeed(who: Account, feedKey: Bytes, feed: Option<ApiFeed>)
    | Ask(who: Account, feedKey: Bytes, nonce: nat, requestId: H256)

  function Try(cfg: Config, c: Chain, step: Step): Result<Chain, Error>
    requires cfg.Valid()
  {
    match step
    case Claim(who, name) => ClaimName(c, who, name)
    case Submit(who, name, tx) => Rollup(cfg, c, who, name, tx)
    case Push(name, data) =>
      (match PushMessage(cfg, c, name, data)
       case Ok((st, _)) => Ok(c.(states := st))
       case Err(e) => Err(e))
    case SetFeed(who, key, feed) =>
      Ok(c.(feeds := match feed case Some(f) => c.feeds[(who, key) := f] case None => c.feeds - {(who, key)}))
    case Ask(who, key, nonce, id) =>
      (match MakeRequest(cfg, c, who, key, nonce, id)
       case Ok((c', _)) => Ok(c')
       case Err(e) => Err(e))
  }

  function Next(cfg: Config, c: Chain, step: Step): Chain
    requires cfg.Valid()
  {
    match Try(cfg, c, step) case Ok(c') => c' case Err(_) => c
  }

  function Run(cfg: Config, steps: seq<Step>): Chain
    requires cfg.Valid()
  {
    if steps == [] then GENESIS
    else Next(cfg, Run(cfg, steps[..|steps| - 1]), steps[|steps| - 1])
  }
}
