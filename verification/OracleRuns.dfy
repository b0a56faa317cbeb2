/** Requests and responses over every run: where each pushed id, stored request and stored
    response comes from. */
module OracleRuns {
  import opened Primitives
  import opened Storage
  import opened Queue
  import opened Anchor
  import opened QueueRuns
  import Isolation

  /** `step`, taken in `c`, is a request that succeeds and stores `request` under `id`. */
  predicate Asks(cfg: Config, c: Chain, step: Step, id: H256, request: Request)
    requires cfg.Valid()
  {
    && step.Ask?
    && Try(cfg, c, step).Ok?
    && step.requestId == id
    && var feed := c.feeds[(step.who, step.feedKey)];
       && feed.status == Active
       && request == Request(step.feedKey, step.who, step.nonce, id + cfg.encodeFeed(feed.url, feed.path))
  }

  /** The action `raw` of a rollup under `name` is a response to `id`, under which `request` is
      stored, and carries `value`. */
  predicate Answers(
    cfg: Config, requests: map<H256, Request>, name: H256, raw: Bytes, id: H256, request: Request, value: Value)
  {
    var action := cfg.decodeAction(raw);
    && action.Some? && action.value.Reply?
    && cfg.decodeResponse(action.value.data) == Some(ResponseRecord(name, id, value))
    && id in requests && requests[id] == request
  }

  /** `step`, taken in `c`, is an accepted rollup by the owner of its name that files `value` for
      `request` under `who`, with a response to `id`. */
  predicate Files(cfg: Config, c: Chain, step: Step, who: Account, id: H256, request: Request, value: Value)
    requires cfg.Valid()
  {
    && step.Submit? && step.who == who
    && Try(cfg, c, step).Ok?
    && step.name in c.submitters && c.submitters[step.name] == who
    && exists j | 0 <= j < |step.tx.actions| ::
         Answers(cfg, c.requests, step.name, step.tx.actions[j], id, request, value)
  }

  // ---------------------------------------------------------------- requests

  lemma StepKeepsRequests(cfg: Config, c: Chain, step: Step)
    requires cfg.Valid()
    ensures c.requests.Keys <= Next(cfg, c, step).requests.Keys
    ensures forall id | id in Next(cfg, c, step).requests ::
      (id in c.requests && Next(cfg, c, step).requests[id] == c.requests[id])
      || Asks(cfg, c, step, id, Next(cfg, c, step).requests[id])
    ensures forall name | name in c.submitters ::
      name in Next(cfg, c, step).submitters && Next(cfg, c, step).submitters[name] == c.submitters[name]
    ensures forall name | name in Next(cfg, c, step).submitters ::
      name in c.submitters || step == Claim(Next(cfg, c, step).submitters[name], name)
  {
    if step.Submit? && Try(cfg, c, step).Ok? {
      Isolation.RollupTouches(cfg, c, step.who, step.name, step.tx);
    }
  }

  /** Request ids and owners stay once they are there. */
  lemma {:induction false} RunKeeps(cfg: Config, steps: seq<Step>, n: nat)
    requires cfg.Valid() && n <= |steps|
    ensures Run(cfg, steps[..n]).requests.Keys <= Run(cfg, steps).requests.Keys
    ensures forall name | name in Run(cfg, steps[..n]).submitters ::
      name in Run(cfg, steps).submitters
      && Run(cfg, steps).submitters[name] == Run(cfg, steps[..n]).submitters[name]
    decreases |steps|
  {
    if n == |steps| {
      assert steps[..n] == steps;
    } else {
      var m := |steps| - 1;
      assert steps[..m][..n] == steps[..n];
      RunKeeps(cfg, steps[..m], n);
      StepKeepsRequests(cfg, Run(cfg, steps[..m]), steps[m]);
    }
  }

  /** A name belongs to the account that claimed it first. */
  lemma {:induction false} OwnerOrigin(cfg: Config, steps: seq<Step>, name: H256) returns (i: nat)
    requires cfg.Valid() && name in Run(cfg, steps).submitters
    ensures i < |steps| && steps[i] == Claim(Run(cfg, steps).submitters[name], name)
    ensures forall j | 0 <= j < i :: !(steps[j].Claim? && steps[j].name == name)
  {
    var n := |steps| - 1;
    var c := Run(cfg, steps[..n]);
    StepKeepsRequests(cfg, c, steps[n]);
    if name in c.submitters {
      i := OwnerOrigin(cfg, steps[..n], name);
    } else {
      i := n;
      forall j | 0 <= j < n ensures !(steps[j].Claim? && steps[j].name == name) {
        if steps[j].Claim? && steps[j].name == name {
          assert steps[..j + 1][..j] == steps[..j];
          assert name in Run(cfg, steps[..j + 1]).submitters;
          assert steps[..n][..j + 1] == steps[..j + 1];
          RunKeeps(cfg, steps[..n], j + 1);
        }
      }
    }
  }

  /** Every stored request was stored under its id by an earlier successful `request`. */
  lemma {:induction false} RequestOrigin(cfg: Config, steps: seq<Step>, id: H256) returns (i: nat)
    requires cfg.Valid() && id in Run(cfg, steps).requests
    ensures i < |steps| && Asks(cfg, Run(cfg, steps[..i]), steps[i], id, Run(cfg, steps).requests[id])
  {
    var n := |steps| - 1;
    var c := Run(cfg, steps[..n]);
    StepKeepsRequests(cfg, c, steps[n]);
    if Asks(cfg, c, steps[n], id, Run(cfg, steps).requests[id]) {
      i := n;
    } else {
      i := RequestOrigin(cfg, steps[..n], id);
      assert steps[..n][..i] == steps[..i];
    }
  }

  /** Every message that the oracle pushed, into whatever queue, is the id of a stored request
      followed by the url and path of the feed. Requests of the run are named by their position `i`. */
  lemma PushedIdIsStored(cfg: Config, steps: seq<Step>, i: nat, name: H256)
    requires cfg.Valid() && i < |steps| && steps[i].Ask?
    requires PushedBy(cfg, Run(cfg, steps[..i]), steps[i], name).Some?
    ensures CarriesId(PushedBy(cfg, Run(cfg, steps[..i]), steps[i], name).value.1, Run(cfg, steps).requests.Keys)
    ensures var feed := Run(cfg, steps[..i]).feeds[(steps[i].who, steps[i].feedKey)];
      PushedBy(cfg, Run(cfg, steps[..i]), steps[i], name).value.1
        == steps[i].requestId + cfg.encodeFeed(feed.url, feed.path)
  {
    var c := Run(cfg, steps[..i]);
    assert steps[..i + 1][..i] == steps[..i];
    assert steps[i].requestId in Run(cfg, steps[..i + 1]).requests;
    RunKeeps(cfg, steps, i + 1);
    var feed := c.feeds[(steps[i].who, steps[i].feedKey)];
    assert RequestMessage(cfg, steps[i].requestId, feed)[..32] == steps[i].requestId;
  }

  ghost predicate OracleOnly(steps: seq<Step>, name: H256) {
    forall i | 0 <= i < |steps| :: steps[i].Push? ==> steps[i].name != name
  }

  lemma {:induction false} PushesCarryIds(cfg: Config, steps: seq<Step>, name: H256, ids: set<H256>)
    requires cfg.Valid() && OracleOnly(steps, name) && Run(cfg, steps).requests.Keys <= ids
    ensures forall p | p in Pushes(cfg, steps, name) :: CarriesId(p.1, ids)
  {
    if steps != [] {
      var n := |steps| - 1;
      assert forall i | 0 <= i < n :: steps[..n][i] == steps[i];
      StepKeepsRequests(cfg, Run(cfg, steps[..n]), steps[n]);
      PushesCarryIds(cfg, steps[..n], name, ids);
      if PushedBy(cfg, Run(cfg, steps[..n]), steps[n], name).Some? {
        PushedIdIsStored(cfg, steps, n, name);
      }
    }
  }

  /** While only the oracle pushes to `name`, whatever waits in the queue can be answered: its id
      is the id of a stored request. */
  lemma PendingCanBeAnswered(cfg: Config, steps: seq<Step>, name: H256)
    requires cfg.Valid() && SparesQueue(cfg, steps, name) && OracleOnly(steps, name)
    requires |Pushes(cfg, steps, name)| < U32_LIMIT
    ensures forall m | m in Pending(cfg, Run(cfg, steps).states, name) ::
      CarriesId(m, Run(cfg, steps).requests.Keys)
  {
    hide Run, Pushes, Consumed, QueueOk;
    var c, pushes, consumed := Run(cfg, steps), Pushes(cfg, steps, name), Consumed(cfg, steps, name);
    QueueIsFifo(cfg, steps, name);
    PushesCarryIds(cfg, steps, name, c.requests.Keys);
    var pending := Pending(cfg, c.states, name);
    forall j | 0 <= j < |pending| ensures CarriesId(pending[j], c.requests.Keys) {
      assert (consumed + pending)[|consumed| + j] == pending[j];
      assert pushes[|consumed| + j] in pushes;
    }
  }

  // ---------------------------------------------------------------- responses

  lemma {:induction false} ActionsFile(
    cfg: Config, c: Chain, name: H256, who: Account, actions: seq<Bytes>, a: Account, r: Request)
    requires cfg.Valid() && ExecActions(cfg, c, name, who, actions).Ok?
    ensures var data := ExecActions(cfg, c, name, who, actions).value.feedData;
      && ExecActions(cfg, c, name, who, actions).value.requests == c.requests
      && ((a, r) in data ==>
           || ((a, r) in c.feedData && c.feedData[(a, r)] == data[(a, r)])
           || (a == who && exists j, id | 0 <= j < |actions| ::
                 Answers(cfg, c.requests, name, actions[j], id, r, data[(a, r)])))
  {
    if actions != [] {
      var m := |actions| - 1;
      ActionsFile(cfg, c, name, who, actions[..m], a, r);
      var c1 := ExecActions(cfg, c, name, who, actions[..m]).value;
      var data := ExecActions(cfg, c, name, who, actions).value.feedData;
      if (a, r) in data {
        if (a, r) in c1.feedData && c1.feedData[(a, r)] == data[(a, r)] {
          if j, id :| 0 <= j < m && Answers(cfg, c.requests, name, actions[..m][j], id, r, data[(a, r)]) {
            assert actions[..m][j] == actions[j];
          }
        } else {
          var id := cfg.decodeResponse(cfg.decodeAction(actions[m]).value.data).value.requestId;
          assert Answers(cfg, c.requests, name, actions[m], id, r, data[(a, r)]);
        }
      }
    }
  }

  /** A step keeps a stored response or files it, by a response to the id of a stored request. */
  lemma StepFiles(cfg: Config, c: Chain, step: Step, who: Account, request: Request)
    requires cfg.Valid() && (who, request) in Next(cfg, c, step).feedData
    ensures var value := Next(cfg, c, step).feedData[(who, request)];
      || ((who, request) in c.feedData && c.feedData[(who, request)] == value)
      || exists id :: Files(cfg, c, step, who, id, request, value)
  {
    var value := Next(cfg, c, step).feedData[(who, request)];
    if !((who, request) in c.feedData && c.feedData[(who, request)] == value) {
      ActionsFile(cfg, c.(states := Anchor.ApplyUpdates(c.states, step.name, step.tx.updates)),
                  step.name, step.who, step.tx.actions, who, request);
      var j, id :| 0 <= j < |step.tx.actions|
        && Answers(cfg, c.requests, step.name, step.tx.actions[j], id, request, value);
      assert Files(cfg, c, step, who, id, request, value);
    }
  }

  /** Every stored response was filed by an accepted rollup, submitted by the account it is filed
      under, who owns (then and now) the name that the response names as its contract; and the
      request under the very id that the response names had been stored by an earlier `request`. */
  lemma {:induction false} ResponseOrigin(cfg: Config, steps: seq<Step>, who: Account, request: Request)
    returns (k: nat, i: nat, id: H256)
    requires cfg.Valid() && (who, request) in Run(cfg, steps).feedData
    ensures i < k < |steps|
    ensures Files(cfg, Run(cfg, steps[..k]), steps[k], who, id, request, Run(cfg, steps).feedData[(who, request)])
    ensures steps[k].name in Run(cfg, steps).submitters && Run(cfg, steps).submitters[steps[k].name] == who
    ensures Asks(cfg, Run(cfg, steps[..i]), steps[i], id, request)
  {
    hide Next, Asks, Files;
    var n := |steps| - 1;
    var c, step := Run(cfg, steps[..n]), steps[n];
    var value := Run(cfg, steps).feedData[(who, request)];
    StepFiles(cfg, c, step, who, request);
    StepKeepsRequests(cfg, c, step);
    if (who, request) in c.feedData && c.feedData[(who, request)] == value {
      k, i, id := ResponseOrigin(cfg, steps[..n], who, request);
      assert steps[..n][..k] == steps[..k] && steps[..n][..i] == steps[..i];
    } else {
      id :| Files(cfg, c, step, who, id, request, value);
      FilesByOwner(cfg, c, step, who, id, request, value);
      k := n;
      i := RequestOrigin(cfg, steps[..n], id);
      assert steps[..n][..i] == steps[..i];
    }
  }

  lemma FilesByOwner(cfg: Config, c: Chain, step: Step, who: Account, id: H256, request: Request, value: Value)
    requires cfg.Valid() && Files(cfg, c, step, who, id, request, value)
    ensures step.Submit? && step.name in c.submitters && c.submitters[step.name] == who
    ensures id in c.requests && c.requests[id] == request
  {
  }
}
