/** Rollup clients read storage at any time and submit later, interleaved with each other and with
    everything else that happens on the chain. The conditions they attach make the result serial. */
module Serial {
  import opened Primitives
  import opened Storage
  import opened Anchor

  /** What a client has read so far, in order. */
  type Transcript = seq<(Key, Option<Value>)>

  datatype Move = Read(key: Key) | Finish(tx: RollupTx)

  /** A deterministic client: what it does next is a function of what it has read. */
  datatype Client = Client(who: Account, name: H256, next: Transcript -> Move)

  type ClientId = nat

  /** The client asks, among its conditions, that everything it read still holds. */
  ghost predicate Guarded(client: Client) {
    forall seen: Transcript | client.next(seen).Finish? ::
      forall i | 0 <= i < |seen| :: Eq(seen[i].0, seen[i].1) in client.next(seen).tx.conds
  }

  // ---------------------------------------------------------------- interleaved execution

  /** `Advance(id)` lets a client do its next move: one read, or the submission. A client starts
      afresh after submitting. `Env(step)` is anything else that happens on the chain. */
  datatype Event = Advance(id: ClientId) | Env(step: Step)

  datatype System = System(chain: Chain, seen: map<ClientId, Transcript>)

  function SeenBy(s: System, id: ClientId): Transcript {
    if id in s.seen then s.seen[id] else []
  }

  ghost predicate Clients(clients: map<ClientId, Client>) {
    forall id | id in clients :: Guarded(clients[id])
  }

  function SubmitStep(client: Client, tx: RollupTx): Step {
    Submit(client.who, client.name, tx)
  }

  function Happen(cfg: Config, clients: map<ClientId, Client>, s: System, e: Event): System
    requires cfg.Valid()
  {
    match e
    case Env(step) => s.(chain := Next(cfg, s.chain, step))
    case Advance(id) =>
      if id !in clients then s
      else
        match clients[id].next(SeenBy(s, id))
        case Read(key) =>
          s.(seen := s.seen[id := SeenBy(s, id) + [(key, Get(s.chain.states, clients[id].name, key))]])
        case Finish(tx) =>
          System(Next(cfg, s.chain, SubmitStep(clients[id], tx)), s.seen[id := []])
  }

  function Interleaved(cfg: Config, clients: map<ClientId, Client>, c: Chain, events: seq<Event>): System
    requires cfg.Valid()
  {
    if events == [] then System(c, map[])
    else
      var n := |events| - 1;
      Happen(cfg, clients, Interleaved(cfg, clients, c, events[..n]), events[n])
  }

  // ---------------------------------------------------------------- serial execution

  /** A whole client run with nothing in between, or one step of the environment. */
  datatype Entry = Whole(id: ClientId) | Other(step: Step)

  predicate Accepted(cfg: Config, clients: map<ClientId, Client>, s: System, id: ClientId)
    requires cfg.Valid()
  {
    && id in clients
    && clients[id].next(SeenBy(s, id)).Finish?
    && Try(cfg, s.chain, SubmitStep(clients[id], clients[id].next(SeenBy(s, id)).tx)).Ok?
  }

  /** The accepted submissions, in the order of acceptance, among the steps of the environment:
      reads and rejected submissions leave no entry. */
  function Log(cfg: Config, clients: map<ClientId, Client>, c: Chain, events: seq<Event>): seq<Entry>
    requires cfg.Valid()
  {
    if events == [] then []
    else
      var n := |events| - 1;
      var log := Log(cfg, clients, c, events[..n]);
      match events[n]
      case Env(step) => log + [Other(step)]
      case Advance(id) =>
        if Accepted(cfg, clients, Interleaved(cfg, clients, c, events[..n]), id) then log + [Whole(id)] else log
  }

  /** `seen` is what `client` reads when nothing else runs and the store is `st`. */
  ghost predicate ReadsAlone(client: Client, st: States, seen: Transcript) {
    && Follows(client, seen)
    && (forall i | 0 <= i < |seen| :: seen[i].1 == Get(st, client.name, seen[i].0))
    && client.next(seen).Finish?
  }

  /** Every read in `seen` is the one the client makes at that point. */
  ghost predicate Follows(client: Client, seen: Transcript) {
    forall i | 0 <= i < |seen| :: client.next(seen[..i]) == Read(seen[i].0)
  }

  /** The client alone: it reads everything from the current store and submits at once. */
  ghost function RunAlone(cfg: Config, client: Client, c: Chain): Option<Result<Chain, Error>>
    requires cfg.Valid()
  {
    if exists seen :: ReadsAlone(client, c.states, seen) then
      var seen :| ReadsAlone(client, c.states, seen);
      Some(Try(cfg, c, SubmitStep(client, client.next(seen).tx)))
    else None
  }

  ghost function SerialStep(cfg: Config, clients: map<ClientId, Client>, c: Chain, e: Entry): Option<Chain>
    requires cfg.Valid()
  {
    match e
    case Other(step) => Some(Next(cfg, c, step))
    case Whole(id) =>
      if id !in clients then None
      else match RunAlone(cfg, clients[id], c) case Some(Ok(c')) => Some(c') case _ => None
  }

  /** One entry after another; `None` if some client would not finish or not be accepted. */
  ghost function Serially(cfg: Config, clients: map<ClientId, Client>, c: Chain, log: seq<Entry>): Option<Chain>
    requires cfg.Valid()
  {
    if log == [] then Some(c)
    else
      var n := |log| - 1;
      match Serially(cfg, clients, c, log[..n])
      case Some(c') => SerialStep(cfg, clients, c', log[n])
      case None => None
  }

  // ---------------------------------------------------------------- proof

  /** A deterministic client reads the same things from the same store. */
  lemma {:induction false} AloneAgree(client: Client, st: States, seen: Transcript, seen': Transcript, n: nat)
    requires ReadsAlone(client, st, seen) && ReadsAlone(client, st, seen')
    requires n <= |seen| && n <= |seen'|
    ensures seen[..n] == seen'[..n]
  {
    if n > 0 {
      AloneAgree(client, st, seen, seen', n - 1);
      assert client.next(seen[..n - 1]) == client.next(seen'[..n - 1]);
      assert seen[n - 1] == seen'[n - 1];
      assert seen[..n] == seen[..n - 1] + [seen[n - 1]];
      assert seen'[..n] == seen'[..n - 1] + [seen'[n - 1]];
    }
  }

  lemma AloneIsUnique(client: Client, st: States, seen: Transcript, seen': Transcript)
    requires ReadsAlone(client, st, seen) && ReadsAlone(client, st, seen')
    ensures seen == seen'
  {
    var n := Min(|seen|, |seen'|);
    AloneAgree(client, st, seen, seen', n);
    // the shorter transcript would be followed by a submission in one run and a read in the other
    assert seen[..|seen|] == seen && seen'[..|seen'|] == seen';
  }

  lemma {:induction false} SeenFollows(
    cfg: Config, clients: map<ClientId, Client>, c: Chain, events: seq<Event>, id: ClientId)
    requires cfg.Valid() && id in clients
    ensures Follows(clients[id], SeenBy(Interleaved(cfg, clients, c, events), id))
  {
    if events != [] {
      var n := |events| - 1;
      SeenFollows(cfg, clients, c, events[..n], id);
      var s := Interleaved(cfg, clients, c, events[..n]);
      var seen := SeenBy(s, id);
      if events[n] == Advance(id) && clients[id].next(seen).Read? {
        var seen' := SeenBy(Happen(cfg, clients, s, events[n]), id);
        assert seen' == seen + [seen'[|seen|]];
        forall i | 0 <= i < |seen'| ensures clients[id].next(seen'[..i]) == Read(seen'[i].0) {
          assert seen'[..i] == seen[..i];
        }
        assert seen'[..|seen|] == seen;
      }
    }
  }

  /** What the client read at some point is not what storage holds now. */
  ghost predicate Stale(client: Client, st: States, seen: Transcript) {
    exists i | 0 <= i < |seen| :: seen[i].1 != Get(st, client.name, seen[i].0)
  }

  /** With one stale read a submission is refused and changes nothing, and its owner is told so by
      `CondNotMet`. Without, it is what the client would do alone on the current storage, accepted
      or not. */
  lemma StaleOrAlone(cfg: Config, client: Client, c: Chain, seen: Transcript)
    requires cfg.Valid() && Guarded(client) && Follows(client, seen) && client.next(seen).Finish?
    ensures var step := SubmitStep(client, client.next(seen).tx);
      if Stale(client, c.states, seen) then
        && Try(cfg, c, step).Err? && Next(cfg, c, step) == c
        && (client.name in c.submitters && c.submitters[client.name] == client.who ==>
              Try(cfg, c, step) == Err(CondNotMet))
      else RunAlone(cfg, client, c) == Some(Try(cfg, c, step))
  {
    hide ExecActions, ApplyUpdates;
    var conds := client.next(seen).tx.conds;
    if i :| 0 <= i < |seen| && seen[i].1 != Get(c.states, client.name, seen[i].0) {
      assert Eq(seen[i].0, seen[i].1) in conds;
      var j :| 0 <= j < |conds| && conds[j] == Eq(seen[i].0, seen[i].1);
      assert !CondsHold(c.states, client.name, conds);
    } else {
      assert ReadsAlone(client, c.states, seen);
      forall seen' | ReadsAlone(client, c.states, seen') ensures seen' == seen {
        AloneIsUnique(client, c.states, seen, seen');
      }
    }
  }

  /** Any interleaving of reads, submissions and other chain activity ends in the storage that the
      accepted clients produce one after another, each running alone, in acceptance order. */
  lemma {:induction false} Serializable(cfg: Config, clients: map<ClientId, Client>, c: Chain, events: seq<Event>)
    requires cfg.Valid() && Clients(clients)
    ensures Serially(cfg, clients, c, Log(cfg, clients, c, events))
         == Some(Interleaved(cfg, clients, c, events).chain)
  {
    if events != [] {
      var n := |events| - 1;
      var log := Log(cfg, clients, c, events[..n]);
      var s := Interleaved(cfg, clients, c, events[..n]);
      Serializable(cfg, clients, c, events[..n]);
      match events[n] {
        case Env(step) =>
          assert (log + [Other(step)])[..|log|] == log;
        case Advance(id) =>
          assert (log + [Whole(id)])[..|log|] == log;
          if Accepted(cfg, clients, s, id) {
            SeenFollows(cfg, clients, c, events[..n], id);
            StaleOrAlone(cfg, clients[id], s.chain, SeenBy(s, id));
          }
      }
    }
  }
}
