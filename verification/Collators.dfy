/** What each call of the collator selection pallet does to its storage and to balances. */
module Collators {
  import opened Primitives

  datatype Candidate = Candidate(who: Account, deposit: nat)

  datatype Config = Config(
    pot: Account,
    maxCandidates: nat,
    minCandidates: nat,
    maxInvulnerables: nat,
    kickThreshold: nat,
    existentialDeposit: nat)

  /** What the session pallet knows about an account. */
  datatype Keys = NoValidatorId | NotRegistered | Registered

  datatype Error =
    | TooManyCandidates
    | TooFewCandidates
    | AlreadyCandidate
    | NotCandidate
    | TooManyInvulnerables
    | AlreadyInvulnerable
    | NoAssociatedValidatorId
    | ValidatorNotRegistered
    | CannotReserve

  type Amounts = map<Account, nat>

  /** Absent entries read as 0, for balances and for `LastAuthoredBlock` alike. */
  function Of(m: Amounts, a: Account): nat {
    if a in m then m[a] else 0
  }

  datatype State = State(
    invulnerables: seq<Account>,
    candidates: seq<Candidate>,
    lastAuthored: Amounts,
    desired: nat,
    bond: nat,
    free: Amounts,
    reserved: Amounts,
    now: nat)

  function Whos(cs: seq<Candidate>): (whos: seq<Account>)
    ensures |whos| == |cs|
    ensures forall i | 0 <= i < |cs| :: whos[i] == cs[i].who
  {
    seq(|cs|, i requires 0 <= i < |cs| => cs[i].who)
  }

  /** Position of the first entry for `who`, or the length. */
  function IndexOf(cs: seq<Candidate>, who: Account): (i: nat)
    ensures i <= |cs|
    ensures i < |cs| ==> cs[i].who == who
    ensures forall j | 0 <= j < i :: cs[j].who != who
  {
    if cs == [] then 0
    else if cs[0].who == who then 0
    else 1 + IndexOf(cs[1..], who)
  }

  predicate IsCandidate(cs: seq<Candidate>, who: Account) {
    IndexOf(cs, who) < |cs|
  }

  function Deposit(cs: seq<Candidate>, who: Account): nat {
    var i := IndexOf(cs, who);
    if i < |cs| then cs[i].deposit else 0
  }

  // ---------------------------------------------------------------- calls

  function SetInvulnerables(cfg: Config, s: State, accounts: seq<Account>, keys: Account -> Keys)
    : Result<State, Error>
  {
    if |accounts| > cfg.maxInvulnerables then Err(TooManyInvulnerables)
    else
      match CheckKeys(accounts, keys)
      case Some(e) => Err(e)
      case None => Ok(s.(invulnerables := accounts))
  }

  function KeyError(keys: Keys): Option<Error> {
    match keys
    case NoValidatorId => Some(NoAssociatedValidatorId)
    case NotRegistered => Some(ValidatorNotRegistered)
    case Registered => None
  }

  /** The error for the first account whose keys are missing. */
  function CheckKeys(accounts: seq<Account>, keys: Account -> Keys): Option<Error> {
    if accounts == [] then None
    else
      var n := |accounts| - 1;
      match CheckKeys(accounts[..n], keys)
      case Some(e) => Some(e)
      case None => KeyError(keys(accounts[n]))
  }

  /** `unlocked` is the currency's own veto, such as a lock on the account. */
  function Register(cfg: Config, s: State, who: Account, keys: Keys, unlocked: bool): Result<State, Error> {
    if |s.candidates| >= s.desired then Err(TooManyCandidates)
    else if who in s.invulnerables then Err(AlreadyInvulnerable)
    else if KeyError(keys).Some? then Err(KeyError(keys).value)
    else if IsCandidate(s.candidates, who) then Err(AlreadyCandidate)
    else if s.bond != 0 && (Of(s.free, who) < s.bond || !unlocked) then Err(CannotReserve)
    else if |s.candidates| >= cfg.maxCandidates then Err(TooManyCandidates)
    else Ok(s.(
      candidates := s.candidates + [Candidate(who, s.bond)],
      free := s.free[who := if s.bond == 0 then Of(s.free, who) else Of(s.free, who) - s.bond],
      reserved := s.reserved[who := Of(s.reserved, who) + s.bond],
      lastAuthored := s.lastAuthored[who := s.now + cfg.kickThreshold]))
  }

  /** Unreserving never takes more than what is reserved. */
  function Remove(s: State, who: Account): Result<State, Error> {
    var i := IndexOf(s.candidates, who);
    if i == |s.candidates| then Err(NotCandidate)
    else
      var back := Min(Of(s.reserved, who), s.candidates[i].deposit);
      Ok(s.(
        candidates := s.candidates[..i] + s.candidates[i + 1..],
        free := s.free[who := Of(s.free, who) + back],
        reserved := s.reserved[who := Of(s.reserved, who) - back],
        lastAuthored := s.lastAuthored - {who}))
  }

  function Leave(cfg: Config, s: State, who: Account): Result<State, Error> {
    if |s.candidates| <= cfg.minCandidates then Err(TooFewCandidates) else Remove(s, who)
  }

  predicate Stale(cfg: Config, now: nat, lastAuthored: Amounts, c: Candidate) {
    SaturatingSub(now, Of(lastAuthored, c.who)) >= cfg.kickThreshold
  }

  /** One turn of the kick loop for snapshot entry `c`: storage as it is now decides. */
  function KickOne(cfg: Config, s: State, c: Candidate): (State, seq<Account>) {
    if !Stale(cfg, s.now, s.lastAuthored, c) || |s.candidates| <= cfg.minCandidates then (s, [c.who])
    else match Remove(s, c.who) case Ok(s') => (s', []) case Err(_) => (s, [])
  }

  /** The loop over a snapshot: the storage it leaves and the accounts it returns. */
  function KickAll(cfg: Config, s: State, snapshot: seq<Candidate>): (State, seq<Account>) {
    if snapshot == [] then (s, [])
    else
      var n := |snapshot| - 1;
      var (s1, active) := KickAll(cfg, s, snapshot[..n]);
      var (s2, last) := KickOne(cfg, s1, snapshot[n]);
      (s2, active + last)
  }

  function NewSession(cfg: Config, s: State): (State, seq<Account>) {
    var (s', active) := KickAll(cfg, s, s.candidates);
    (s', s'.invulnerables + active)
  }

  /** A keep-alive transfer of the currency; `None` when it is refused. */
  function Transfer(cfg: Config, s: State, from: Account, to: Account, amount: nat): Option<Amounts> {
    if amount == 0 || from == to then Some(s.free)
    else if Of(s.free, from) < amount then None
    else if Of(s.free, to) + amount + Of(s.reserved, to) < cfg.existentialDeposit then None
    else if Of(s.free, from) - amount + Of(s.reserved, from) < cfg.existentialDeposit then None
    else Some(s.free[from := Of(s.free, from) - amount][to := Of(s.free, to) + amount])
  }

  function Reward(cfg: Config, s: State): nat {
    SaturatingSub(Of(s.free, cfg.pot), cfg.existentialDeposit) / 2
  }

  function NoteAuthor(cfg: Config, s: State, author: Account): State {
    var paid := Transfer(cfg, s, cfg.pot, author, Reward(cfg, s));
    s.(free := if paid.Some? then paid.value else s.free,
       lastAuthored := s.lastAuthored[author := s.now])
  }

  // ---------------------------------------------------------------- runs

  /** `External` is everything else on the chain: it may change an account's free balance and what
      other pallets hold in reserve, but not the deposit held for this one. */
  datatype Step =
    | DoSetInvulnerables(accounts: seq<Account>, keysOf: Account -> Keys)
    | DoSetDesired(desired: nat)
    | DoSetBond(bond: nat)
    | DoRegister(who: Account, keys: Keys, unlocked: bool)
    | DoLeave(who: Account)
    | DoNoteAuthor(author: Account)
    | DoNewSession
    | NextBlock
    | External(account: Account, free: nat, foreign: nat)

  function OrElse(r: Result<State, Error>, s: State): State {
    match r case Ok(s') => s' case Err(_) => s
  }

  function Next(cfg: Config, s: State, step: Step): State {
    match step
    case DoSetInvulnerables(accounts, keys) => OrElse(SetInvulnerables(cfg, s, accounts, keys), s)
    case DoSetDesired(desired) => s.(desired := desired)
    case DoSetBond(bond) => s.(bond := bond)
    case DoRegister(who, keys, unlocked) => OrElse(Register(cfg, s, who, keys, unlocked), s)
    case DoLeave(who) => OrElse(Leave(cfg, s, who), s)
    case DoNoteAuthor(author) => NoteAuthor(cfg, s, author)
    case DoNewSession => NewSession(cfg, s).0
    case NextBlock => s.(now := s.now + 1)
    case External(a, free, foreign) =>
      s.(free := s.free[a := free], reserved := s.reserved[a := foreign + Deposit(s.candidates, a)])
  }

  /** The run of `steps` from a state without candidates, as genesis leaves it. */
  function Run(cfg: Config, genesis: State, steps: seq<Step>): State {
    if steps == [] then genesis
    else Next(cfg, Run(cfg, genesis, steps[..|steps| - 1]), steps[|steps| - 1])
  }
}
