/** Isolation of rollup transactions: what one can touch, what its outcome can depend on, and
    when two of them commute. */
module Isolation {
  import opened Primitives
  import opened Storage
  import opened Queue
  import opened Anchor

  type FeedData = map<(Account, Request), Value>

  function Fed(data: FeedData, who: Account, r: Request): Option<Value> {
    if (who, r) in data then Some(data[(who, r)]) else None
  }

  /** `c` and `d` agree on all that decides the outcome of a rollup under `name`: responses stored
      by the oracle are not part of it. */
  ghost predicate Agree(c: Chain, d: Chain, name: H256) {
    && c.submitters == d.submitters
    && c.requests == d.requests
    && forall k: Key :: Get(c.states, name, k) == Get(d.states, name, k)
  }

  /** `d` is `c` except for storage under `name` and responses filed under `who`. */
  ghost predicate OnlyTouches(c: Chain, d: Chain, name: H256, who: Account) {
    && c.submitters == d.submitters
    && c.requests == d.requests
    && c.feeds == d.feeds
    && (forall n: H256, k: Key | n != name :: Get(c.states, n, k) == Get(d.states, n, k))
    && (forall a: Account, r: Request | a != who :: Fed(c.feedData, a, r) == Fed(d.feedData, a, r))
  }

  /** Both fail with the same error, or both succeed in states that agree. */
  ghost predicate SameOutcome(r: Result<Chain, Error>, r': Result<Chain, Error>, name: H256) {
    match (r, r')
    case (Ok(c), Ok(d)) => Agree(c, d, name)
    case (Err(e), Err(e')) => e == e'
    case _ => false
  }

  // ---------------------------------------------------------------- what is touched

  lemma {:induction false} UpdatesTouch(st: States, name: H256, updates: seq<(Key, Option<Value>)>, n: H256, k: Key)
    requires n != name || forall i | 0 <= i < |updates| :: updates[i].0 != k
    ensures Get(ApplyUpdates(st, name, updates), n, k) == Get(st, n, k)
  {
    if updates != [] {
      UpdatesTouch(st, name, updates[..|updates| - 1], n, k);
    }
  }

  lemma SetHeadTouches(cfg: Config, st: States, name: H256, index: nat, n: H256, k: Key)
    requires cfg.Valid() && SetHead(cfg, st, name, index).Ok? && n != name
    ensures Get(SetHead(cfg, st, name, index).value, n, k) == Get(st, n, k)
  {
    RemoveSlotsKeeps(cfg, st, name, HeadOf(cfg, st, name), index, n, k);
  }

  lemma {:induction false} ActionsTouch(cfg: Config, c: Chain, name: H256, who: Account, actions: seq<Bytes>)
    requires cfg.Valid() && ExecActions(cfg, c, name, who, actions).Ok?
    ensures OnlyTouches(c, ExecActions(cfg, c, name, who, actions).value, name, who)
  {
    if actions != [] {
      var m := |actions| - 1;
      ActionsTouch(cfg, c, name, who, actions[..m]);
      var c1 := ExecActions(cfg, c, name, who, actions[..m]).value;
      match cfg.decodeAction(actions[m]) {
        case Some(SetQueueHead(head)) =>
          forall n: H256, k: Key | n != name
            ensures Get(SetHead(cfg, c1.states, name, head).value, n, k) == Get(c1.states, n, k)
          {
            SetHeadTouches(cfg, c1.states, name, head, n, k);
          }
        case Some(Reply(_)) =>
      }
    }
  }

  /** A successful rollup changes the store only under its own name, and the oracle's data only
      under its submitter; it never changes owners, feeds or requests. */
  lemma RollupTouches(cfg: Config, c: Chain, who: Account, name: H256, tx: RollupTx)
    requires cfg.Valid() && Rollup(cfg, c, who, name, tx).Ok?
    ensures OnlyTouches(c, Rollup(cfg, c, who, name, tx).value, name, who)
  {
    var c1 := c.(states := Anchor.ApplyUpdates(c.states, name, tx.updates));
    forall n: H256, k: Key | n != name ensures Get(c1.states, n, k) == Get(c.states, n, k) {
      UpdatesTouch(c.states, name, tx.updates, n, k);
    }
    ActionsTouch(cfg, c1, name, who, tx.actions);
  }

  /** The last update for `key`, `None` when there is none. */
  function LastUpdate(updates: seq<(Key, Option<Value>)>, key: Key): Option<Option<Value>> {
    if updates == [] then None
    else
      var n := |updates| - 1;
      if updates[n].0 == key then Some(updates[n].1) else LastUpdate(updates[..n], key)
  }

  lemma {:induction false} UpdatesApplied(st: States, name: H256, updates: seq<(Key, Option<Value>)>, key: Key)
    ensures Get(ApplyUpdates(st, name, updates), name, key)
         == match LastUpdate(updates, key) case Some(v) => v case None => Get(st, name, key)
  {
    if updates != [] {
      UpdatesApplied(st, name, updates[..|updates| - 1], key);
    }
  }

  lemma {:induction false} ActionsTouchQueueOnly(
    cfg: Config, c: Chain, name: H256, who: Account, actions: seq<Bytes>, key: Key)
    requires cfg.Valid() && ExecActions(cfg, c, name, who, actions).Ok? && !IsQueueKey(cfg, key)
    ensures Get(ExecActions(cfg, c, name, who, actions).value.states, name, key) == Get(c.states, name, key)
  {
    if actions != [] {
      var m := |actions| - 1;
      ActionsTouchQueueOnly(cfg, c, name, who, actions[..m], key);
      var c1 := ExecActions(cfg, c, name, who, actions[..m]).value;
      match cfg.decodeAction(actions[m]) {
        case Some(SetQueueHead(index)) =>
          RemoveSlotsKeeps(cfg, c1.states, name, HeadOf(cfg, c1.states, name), index, name, key);
          forall i: nat | i < U32_LIMIT ensures SlotKey(cfg, i) != key {
            QueueKeysDistinct(cfg, i, i);
          }
        case Some(Reply(_)) =>
      }
    }
  }

  /** After a successful rollup a key outside the queue holds its last update, or what it held
      before if there is none, whatever the actions did. */
  lemma RollupStores(cfg: Config, c: Chain, who: Account, name: H256, tx: RollupTx, key: Key)
    requires cfg.Valid() && Rollup(cfg, c, who, name, tx).Ok? && !IsQueueKey(cfg, key)
    ensures Get(Rollup(cfg, c, who, name, tx).value.states, name, key)
         == match LastUpdate(tx.updates, key) case Some(v) => v case None => Get(c.states, name, key)
  {
    var c1 := c.(states := Anchor.ApplyUpdates(c.states, name, tx.updates));
    UpdatesApplied(c.states, name, tx.updates, key);
    ActionsTouchQueueOnly(cfg, c1, name, who, tx.actions, key);
  }

  /** The answer that the action `raw` of a rollup under `name` files for `request`. */
  function Answer(cfg: Config, requests: map<H256, Request>, name: H256, raw: Bytes, request: Request): Option<Value> {
    match cfg.decodeAction(raw)
    case Some(Reply(data)) =>
      (match cfg.decodeResponse(data)
       case Some(resp) =>
         if resp.contractId == name && resp.requestId in requests && requests[resp.requestId] == request
         then Some(resp.responseData) else None
       case None => None)
    case _ => None
  }

  /** The last answer that `actions` give to `request`. */
  function LastAnswer(cfg: Config, requests: map<H256, Request>, name: H256, actions: seq<Bytes>, request: Request)
    : Option<Value>
  {
    if actions == [] then None
    else
      var n := |actions| - 1;
      match Answer(cfg, requests, name, actions[n], request)
      case Some(v) => Some(v)
      case None => LastAnswer(cfg, requests, name, actions[..n], request)
  }

  lemma {:induction false} ActionsAnswer(
    cfg: Config, c: Chain, name: H256, who: Account, actions: seq<Bytes>, request: Request)
    requires cfg.Valid() && ExecActions(cfg, c, name, who, actions).Ok?
    ensures ExecActions(cfg, c, name, who, actions).value.requests == c.requests
    ensures Fed(ExecActions(cfg, c, name, who, actions).value.feedData, who, request)
         == match LastAnswer(cfg, c.requests, name, actions, request)
            case Some(v) => Some(v)
            case None => Fed(c.feedData, who, request)
  {
    if actions != [] {
      ActionsAnswer(cfg, c, name, who, actions[..|actions| - 1], request);
    }
  }

  /** After a successful rollup a request holds, under the submitter, the last answer that the
      actions give to it, or what it held before if there is none. */
  lemma RollupAnswers(cfg: Config, c: Chain, who: Account, name: H256, tx: RollupTx, request: Request)
    requires cfg.Valid() && Rollup(cfg, c, who, name, tx).Ok?
    ensures Fed(Rollup(cfg, c, who, name, tx).value.feedData, who, request)
         == match LastAnswer(cfg, c.requests, name, tx.actions, request)
            case Some(v) => Some(v)
            case None => Fed(c.feedData, who, request)
  {
    var c1 := c.(states := Anchor.ApplyUpdates(c.states, name, tx.updates));
    ActionsAnswer(cfg, c1, name, who, tx.actions, request);
  }

  // ---------------------------------------------------------------- what is depended on

  lemma {:induction false} UpdatesAgree(
    st: States, st': States, name: H256, updates: seq<(Key, Option<Value>)>, k: Key)
    requires forall k: Key :: Get(st, name, k) == Get(st', name, k)
    ensures Get(ApplyUpdates(st, name, updates), name, k) == Get(ApplyUpdates(st', name, updates), name, k)
  {
    if updates != [] {
      UpdatesAgree(st, st', name, updates[..|updates| - 1], k);
    }
  }

  lemma SetHeadAgrees(cfg: Config, c: Chain, d: Chain, name: H256, index: nat)
    requires cfg.Valid() && Agree(c, d, name)
    ensures match (SetHead(cfg, c.states, name, index), SetHead(cfg, d.states, name, index))
      case (Ok(st), Ok(st')) => Agree(c.(states := st), d.(states := st'), name)
      case (Err(e), Err(e')) => e == e'
      case _ => false
  {
    hide EncodeU32, DecodeU32;
    if SetHead(cfg, c.states, name, index).Ok? {
      var head := HeadOf(cfg, c.states, name);
      var st, st' := SetHead(cfg, c.states, name, index).value, SetHead(cfg, d.states, name, index).value;
      forall k: Key ensures Get(st, name, k) == Get(st', name, k) {
        RemoveSlotsKeeps(cfg, c.states, name, head, index, name, k);
        RemoveSlotsKeeps(cfg, d.states, name, head, index, name, k);
      }
    }
  }

  lemma {:induction false} ActionsAgree(
    cfg: Config, c: Chain, d: Chain, name: H256, who: Account, actions: seq<Bytes>)
    requires cfg.Valid() && Agree(c, d, name)
    ensures SameOutcome(ExecActions(cfg, c, name, who, actions), ExecActions(cfg, d, name, who, actions), name)
  {
    if actions != [] {
      var m := |actions| - 1;
      ActionsAgree(cfg, c, d, name, who, actions[..m]);
      if ExecActions(cfg, c, name, who, actions[..m]).Ok? {
        var c1 := ExecActions(cfg, c, name, who, actions[..m]).value;
        var d1 := ExecActions(cfg, d, name, who, actions[..m]).value;
        match cfg.decodeAction(actions[m]) {
          case None =>
          case Some(SetQueueHead(head)) => SetHeadAgrees(cfg, c1, d1, name, head);
          case Some(Reply(_)) =>
        }
      }
    }
  }

  /** The outcome of a rollup, replies included, depends only on the owners, the requests and its
      own part of the store. */
  lemma RollupAgrees(cfg: Config, c: Chain, d: Chain, who: Account, name: H256, tx: RollupTx)
    requires cfg.Valid() && Agree(c, d, name)
    ensures SameOutcome(Rollup(cfg, c, who, name, tx), Rollup(cfg, d, who, name, tx), name)
  {
    var c1 := c.(states := Anchor.ApplyUpdates(c.states, name, tx.updates));
    var d1 := d.(states := Anchor.ApplyUpdates(d.states, name, tx.updates));
    forall k: Key ensures Get(c1.states, name, k) == Get(d1.states, name, k) {
      UpdatesAgree(c.states, d.states, name, tx.updates, k);
    }
    assert Agree(c1, d1, name);
    ActionsAgree(cfg, c1, d1, name, who, tx.actions);
  }

  // ---------------------------------------------------------------- commutation

  lemma StatesEqual(st: States, st': States)
    requires forall n: H256, k: Key :: Get(st, n, k) == Get(st', n, k)
    ensures st == st'
  {
    forall p | p in st ensures p in st' && st'[p] == st[p] {
      assert Get(st, p.0, p.1) == Get(st', p.0, p.1);
    }
    forall p | p in st' ensures p in st {
      assert Get(st, p.0, p.1) == Get(st', p.0, p.1);
    }
  }

  lemma FeedDataEqual(data: FeedData, data': FeedData)
    requires forall a: Account, r: Request :: Fed(data, a, r) == Fed(data', a, r)
    ensures data == data'
  {
    forall p | p in data ensures p in data' && data'[p] == data[p] {
      assert Fed(data, p.0, p.1) == Fed(data', p.0, p.1);
    }
    forall p | p in data' ensures p in data {
      assert Fed(data, p.0, p.1) == Fed(data', p.0, p.1);
    }
  }

  /** Whoever submits and whatever they reply, a rollup has the same result whether or not one
      under another name ran before it. */
  lemma ResultsCommute(
    cfg: Config, c: Chain, who: Account, name: H256, tx: RollupTx, who': Account, name': H256, tx': RollupTx)
    requires cfg.Valid() && name != name'
    ensures SameOutcome(
      Rollup(cfg, c, who, name, tx), Rollup(cfg, Next(cfg, c, Submit(who', name', tx')), who, name, tx), name)
  {
    var d := Next(cfg, c, Submit(who', name', tx'));
    if Rollup(cfg, c, who', name', tx').Ok? {
      RollupTouches(cfg, c, who', name', tx');
    }
    assert Agree(c, d, name);
    RollupAgrees(cfg, c, d, who, name, tx);
  }

  lemma StoresCommute(
    cfg: Config, c: Chain, who: Account, name: H256, tx: RollupTx, who': Account, name': H256, tx': RollupTx)
    requires cfg.Valid() && name != name'
    requires Rollup(cfg, c, who, name, tx).Ok? && Rollup(cfg, c, who', name', tx').Ok?
    ensures var a, b := Submit(who, name, tx), Submit(who', name', tx');
      var cab, cba := Next(cfg, Next(cfg, c, a), b), Next(cfg, Next(cfg, c, b), a);
      && cab == cba.(feedData := cab.feedData)
      && (forall s: Account, r: Request | s != who && s != who' :: Fed(cab.feedData, s, r) == Fed(cba.feedData, s, r))
  {
    hide ExecActions, CondsHold;
    ResultsCommute(cfg, c, who, name, tx, who', name', tx');
    ResultsCommute(cfg, c, who', name', tx', who, name, tx);
    var ca, cb := Rollup(cfg, c, who, name, tx).value, Rollup(cfg, c, who', name', tx').value;
    var cab, cba := Rollup(cfg, ca, who', name', tx').value, Rollup(cfg, cb, who, name, tx).value;
    RollupTouches(cfg, c, who, name, tx);
    RollupTouches(cfg, c, who', name', tx');
    RollupTouches(cfg, ca, who', name', tx');
    RollupTouches(cfg, cb, who, name, tx);
    forall n: H256, k: Key ensures Get(cab.states, n, k) == Get(cba.states, n, k) {
      if n == name {
        assert Get(cab.states, n, k) == Get(ca.states, n, k);
      } else {
        assert Get(cba.states, n, k) == Get(cb.states, n, k);
      }
    }
    StatesEqual(cab.states, cba.states);
    forall s: Account, r: Request | s != who && s != who' ensures Fed(cab.feedData, s, r) == Fed(cba.feedData, s, r) {
      assert Fed(cab.feedData, s, r) == Fed(c.feedData, s, r);
    }
  }

  /** Two transactions do not answer `request` differently. */
  predicate NoConflict(
    cfg: Config, requests: map<H256, Request>, name: H256, tx: RollupTx, name': H256, tx': RollupTx, request: Request)
  {
    var v, v' :=
      LastAnswer(cfg, requests, name, tx.actions, request), LastAnswer(cfg, requests, name', tx'.actions, request);
    v.Some? && v'.Some? ==> v == v'
  }

  /** What one request holds after both orders. */
  lemma AnswersInBothOrders(
    cfg: Config, c: Chain, who: Account, name: H256, tx: RollupTx, who': Account, name': H256, tx': RollupTx,
    s: Account, r: Request)
    requires cfg.Valid() && name != name'
    requires Rollup(cfg, c, who, name, tx).Ok? && Rollup(cfg, c, who', name', tx').Ok?
    ensures var a, b := Submit(who, name, tx), Submit(who', name', tx');
      var cab, cba := Next(cfg, Next(cfg, c, a), b), Next(cfg, Next(cfg, c, b), a);
      Fed(cab.feedData, s, r) == Fed(cba.feedData, s, r) <==>
        (s == who == who' ==> NoConflict(cfg, c.requests, name, tx, name', tx', r))
  {
    hide ExecActions, CondsHold;
    ResultsCommute(cfg, c, who, name, tx, who', name', tx');
    ResultsCommute(cfg, c, who', name', tx', who, name, tx);
    var ca, cb := Rollup(cfg, c, who, name, tx).value, Rollup(cfg, c, who', name', tx').value;
    RollupTouches(cfg, c, who, name, tx);
    RollupTouches(cfg, c, who', name', tx');
    RollupTouches(cfg, ca, who', name', tx');
    RollupTouches(cfg, cb, who, name, tx);
    RollupAnswers(cfg, c, who, name, tx, r);
    RollupAnswers(cfg, c, who', name', tx', r);
    RollupAnswers(cfg, ca, who', name', tx', r);
    RollupAnswers(cfg, cb, who, name, tx, r);
  }

  /** Rollups under different names end in the same state in both orders unless both are accepted,
      share their submitter, and answer some request differently: this can be read off the two
      transactions and the stored requests. */
  lemma RollupsCommuteIff(
    cfg: Config, c: Chain, who: Account, name: H256, tx: RollupTx, who': Account, name': H256, tx': RollupTx)
    requires cfg.Valid() && name != name'
    ensures var a, b := Submit(who, name, tx), Submit(who', name', tx');
      Next(cfg, Next(cfg, c, a), b) == Next(cfg, Next(cfg, c, b), a) <==>
        (Try(cfg, c, a).Ok? && Try(cfg, c, b).Ok? && who == who' ==>
           forall r: Request :: NoConflict(cfg, c.requests, name, tx, name', tx', r))
  {
    hide Rollup, NoConflict;
    var a, b := Submit(who, name, tx), Submit(who', name', tx');
    ResultsCommute(cfg, c, who, name, tx, who', name', tx');
    ResultsCommute(cfg, c, who', name', tx', who, name, tx);
    if Try(cfg, c, a).Ok? && Try(cfg, c, b).Ok? {
      var cab, cba := Next(cfg, Next(cfg, c, a), b), Next(cfg, Next(cfg, c, b), a);
      StoresCommute(cfg, c, who, name, tx, who', name', tx');
      if who == who' {
        forall r: Request
          ensures Fed(cab.feedData, who, r) == Fed(cba.feedData, who, r)
            <==> NoConflict(cfg, c.requests, name, tx, name', tx', r)
        {
          AnswersInBothOrders(cfg, c, who, name, tx, who', name', tx', who, r);
        }
      }
      if who == who' ==> forall r: Request :: NoConflict(cfg, c.requests, name, tx, name', tx', r) {
        forall s: Account, r: Request ensures Fed(cab.feedData, s, r) == Fed(cba.feedData, s, r) {
          AnswersInBothOrders(cfg, c, who, name, tx, who', name', tx', s, r);
        }
        FeedDataEqual(cab.feedData, cba.feedData);
      }
    }
  }

  // ---------------------------------------------------------------- a conflict on a reachable state

  /** Two names of one account, and one stored request. */
  function ConflictSteps(who: Account, name: H256, name': H256): seq<Step> {
    [Claim(who, name), Claim(who, name'), SetFeed(who, [], Some(ApiFeed([], [], Active))), Ask(who, [], 0, name)]
  }

  /** An instance of the exception, after four ordinary calls from genesis: two contracts of one
      submitter answer the same request differently, and the later answer stays. */
  lemma AnswersOfOneSubmitterConflict(who: Account, capacity: nat)
    requires 0 < capacity < U32_LIMIT
    ensures exists cfg: Config, name: H256, name': H256, tx: RollupTx, tx': RollupTx ::
      && cfg.Valid() && name != name'
      && (var c := Run(cfg, ConflictSteps(who, name, name'));
          var a, b := Submit(who, name, tx), Submit(who, name', tx');
          && Try(cfg, c, a).Ok? && Try(cfg, c, b).Ok?
          && Next(cfg, Next(cfg, c, a), b) != Next(cfg, Next(cfg, c, b), a))
  {
    hide Run, Try, Next, ConflictSteps;
    var name, name': H256 := seq(32, _ => 0), seq(32, _ => 1);
    assert name[0] != name'[0];
    var cfg := Config(
      [], capacity,
      raw => Some(Reply(raw)),
      data => Some(if data == [0] then ResponseRecord(name, name, [0]) else ResponseRecord(name', name, [1])),
      (url, path) => url + path,
      _ => name);
    ConflictState(cfg, who, name, name');
    Conflict(cfg, Run(cfg, ConflictSteps(who, name, name')), who, name, name');
  }

  lemma Conflict(cfg: Config, c: Chain, who: Account, name: H256, name': H256)
    requires cfg.Valid() && name != name'
    requires c.submitters == map[name := who, name' := who] && name in c.requests
    requires cfg.decodeAction([0]) == Some(Reply([0])) && cfg.decodeAction([1]) == Some(Reply([1]))
    requires cfg.decodeResponse([0]) == Some(ResponseRecord(name, name, [0]))
    requires cfg.decodeResponse([1]) == Some(ResponseRecord(name', name, [1]))
    ensures var a, b := Submit(who, name, RollupTx([], [[0]], [])), Submit(who, name', RollupTx([], [[1]], []));
      && Try(cfg, c, a).Ok? && Try(cfg, c, b).Ok?
      && Next(cfg, Next(cfg, c, a), b) != Next(cfg, Next(cfg, c, b), a)
  {
    hide Next;
    var tx, tx' := RollupTx([], [[0]], []), RollupTx([], [[1]], []);
    var request := c.requests[name];
    OneAnswer(cfg, c, name, who, [0]);
    OneAnswer(cfg, c, name', who, [1]);
    SingleAnswer(cfg, c.requests, name, [0], request);
    SingleAnswer(cfg, c.requests, name', [1], request);
    assert !NoConflict(cfg, c.requests, name, tx, name', tx', request);
    RollupsCommuteIff(cfg, c, who, name, tx, who, name', tx');
  }

  lemma ConflictState(cfg: Config, who: Account, name: H256, name': H256)
    requires cfg.Valid() && cfg.capacity > 0 && name != name'
    requires cfg.encodeFeed([], []) == [] && cfg.lastKey({name, name'}) == name
    ensures var c := Run(cfg, ConflictSteps(who, name, name'));
      c.submitters == map[name := who, name' := who] && name in c.requests
  {
    var steps := ConflictSteps(who, name, name');
    assert steps[..3][..2] == steps[..2] && steps[..2][..1] == steps[..1] && steps[..1][..0] == [];
    assert Run(cfg, steps[..0]) == GENESIS;
    var c1 := Run(cfg, steps[..1]);
    assert c1 == GENESIS.(submitters := map[name := who]);
    var c2 := Run(cfg, steps[..2]);
    assert c2 == GENESIS.(submitters := map[name := who, name' := who]);
    var c3 := Run(cfg, steps[..3]);
    assert c3 == c2.(feeds := map[(who, []) := ApiFeed([], [], Active)]);
    assert c3.submitters.Keys == {name, name'};
    EmptyQueueOk(cfg, c3.states, name);
    PushAcceptedIff(cfg, c3, name, RequestMessage(cfg, name, ApiFeed([], [], Active)));
  }

  lemma SingleAnswer(cfg: Config, requests: map<H256, Request>, name: H256, raw: Bytes, request: Request)
    ensures LastAnswer(cfg, requests, name, [raw], request) == Answer(cfg, requests, name, raw, request)
  {
    assert [raw][..0] == [];
  }

  lemma OneAnswer(cfg: Config, c: Chain, name: H256, who: Account, raw: Bytes)
    requires cfg.Valid() && name in c.submitters && c.submitters[name] == who
    ensures Rollup(cfg, c, who, name, RollupTx([], [raw], [])) == ExecAction(cfg, c, name, who, raw)
  {
    assert ApplyUpdates(c.states, name, []) == c.states;
    assert ExecActions(cfg, c, name, who, [raw]) == ExecAction(cfg, c, name, who, raw) by {
      assert [raw][..0] == [];
      assert ExecActions(cfg, c, name, who, []) == Ok(c);
    }
  }
}
