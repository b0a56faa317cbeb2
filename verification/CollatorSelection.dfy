/** The collator selection pallet as it runs: storage and balances changed in place. */
module CollatorSelection {
  import opened Primitives
  import C = Collators
  import opened Collators
  import opened CollatorProofs

  class Pallet {
    const cfg: Config
    var invulnerables: seq<Account>
    var candidates: seq<Candidate>
    var lastAuthored: Amounts
    var desired: nat
    var bond: nat
    var free: Amounts
    var reserved: Amounts
    var now: nat

    /** Genesis refuses repeated or too many invulnerables and too many desired candidates. */
    constructor (cfg: Config, invulnerables: seq<Account>, bond: nat, desired: nat, free: Amounts, reserved: Amounts)
      requires forall i, j | 0 <= i < j < |invulnerables| :: invulnerables[i] != invulnerables[j]
      requires |invulnerables| <= cfg.maxInvulnerables && desired <= cfg.maxCandidates
      ensures this.cfg == cfg
      ensures Now() == State(invulnerables, [], map[], desired, bond, free, reserved, 0)
    {
      this.cfg := cfg;
      this.invulnerables, this.candidates, this.lastAuthored := invulnerables, [], map[];
      this.desired, this.bond := desired, bond;
      this.free, this.reserved, this.now := free, reserved, 0;
    }

    function Now(): State
      reads this
    {
      State(invulnerables, candidates, lastAuthored, desired, bond, free, reserved, now)
    }

    /** `r` reports the outcome that `spec` gives, and storage is what it leaves. */
    ghost predicate Did(before: State, spec: Result<State, Error>, r: Result<(), Error>)
      reads this
    {
      match spec
      case Ok(s) => r == Ok(()) && Now() == s
      case Err(e) => r == Err(e) && Now() == before
    }

    method SetInvulnerables(accounts: seq<Account>, keys: Account -> Keys) returns (r: Result<(), Error>)
      modifies this
      ensures Did(old(Now()), C.SetInvulnerables(cfg, old(Now()), accounts, keys), r)
      ensures r.Ok? <==> |accounts| <= cfg.maxInvulnerables && forall a | a in accounts :: keys(a) == Registered
      ensures r.Ok? ==> invulnerables == accounts
      ensures r.Err? ==> InvulnerablesFault(cfg, accounts, keys, r.error)
    {
      SetInvulnerablesIff(cfg, Now(), accounts, keys);
      if |accounts| > cfg.maxInvulnerables {
        return Err(TooManyInvulnerables);
      }
      for i := 0 to |accounts|
        invariant unchanged(this)
        invariant CheckKeys(accounts[..i], keys) == None
      {
        PrefixStep(accounts, i);
        var e := KeyError(keys(accounts[i]));
        if e.Some? {
          FirstKeyErrorDecides(accounts, keys, i + 1);
          return Err(e.value);
        }
      }
      assert accounts[..|accounts|] == accounts;
      invulnerables := accounts;
      r := Ok(());
    }

    method SetDesiredCandidates(max: nat)
      modifies this
      ensures Now() == old(Now()).(desired := max)
    {
      desired := max;
    }

    method SetCandidacyBond(bond: nat)
      modifies this
      ensures Now() == old(Now()).(bond := bond)
    {
      this.bond := bond;
    }

    /** `Currency::reserve`, whose effect is undone with the rest of the call if a later check fails. */
    method Reserve(who: Account, amount: nat, unlocked: bool) returns (ok: bool)
      modifies this`free, this`reserved
      ensures ok <==> amount == 0 || (Of(old(free), who) >= amount && unlocked)
      ensures ok && amount != 0 ==> free == old(free)[who := Of(old(free), who) - amount]
      ensures ok && amount == 0 ==> free == old(free)[who := Of(old(free), who)]
      ensures ok ==> reserved == old(reserved)[who := Of(old(reserved), who) + amount]
      ensures !ok ==> free == old(free) && reserved == old(reserved)
    {
      if amount != 0 && (Of(free, who) < amount || !unlocked) {
        return false;
      }
      free := free[who := Of(free, who) - amount];
      reserved := reserved[who := Of(reserved, who) + amount];
      ok := true;
    }

    method RegisterAsCandidate(who: Account, keys: Keys, unlocked: bool) returns (r: Result<(), Error>)
      modifies this
      ensures Did(old(Now()), Register(cfg, old(Now()), who, keys, unlocked), r)
      ensures r.Ok? <==> RegisterFits(cfg, old(Now()), who, keys, unlocked)
      ensures r.Ok? ==> candidates == old(candidates) + [Candidate(who, old(bond))]
      ensures r.Err? ==> RegisterFault(cfg, old(Now()), who, keys, unlocked, r.error)
    {
      hide RegisterFits, RegisterFault, IndexOf;
      RegisterIff(cfg, Now(), who, keys, unlocked);
      if |candidates| >= desired {
        return Err(TooManyCandidates);
      }
      if who in invulnerables {
        return Err(AlreadyInvulnerable);
      }
      var e := KeyError(keys);
      if e.Some? {
        return Err(e.value);
      }
      if IsCandidate(candidates, who) {
        return Err(AlreadyCandidate);
      }
      var savedFree, savedReserved := free, reserved;
      var ok := Reserve(who, bond, unlocked);
      if !ok {
        return Err(CannotReserve);
      }
      if |candidates| >= cfg.maxCandidates {
        free, reserved := savedFree, savedReserved;
        return Err(TooManyCandidates);
      }
      candidates := candidates + [Candidate(who, bond)];
      lastAuthored := lastAuthored[who := now + cfg.kickThreshold];
      r := Ok(());
    }

    method TryRemoveCandidate(who: Account) returns (r: Result<(), Error>)
      modifies this
      ensures Did(old(Now()), Remove(old(Now()), who), r)
    {
      var i := IndexOf(candidates, who);
      if i == |candidates| {
        return Err(NotCandidate);
      }
      var c := candidates[i];
      candidates := candidates[..i] + candidates[i + 1..];
      var back := Min(Of(reserved, who), c.deposit);
      free := free[who := Of(free, who) + back];
      reserved := reserved[who := Of(reserved, who) - back];
      lastAuthored := lastAuthored - {who};
      r := Ok(());
    }

    method LeaveIntent(who: Account) returns (r: Result<(), Error>)
      modifies this
      ensures Did(old(Now()), Leave(cfg, old(Now()), who), r)
      ensures r.Ok? <==> |old(candidates)| > cfg.minCandidates && who in Whos(old(candidates))
    {
      LeaveIff(cfg, Now(), who);
      if |candidates| <= cfg.minCandidates {
        return Err(TooFewCandidates);
      }
      r := TryRemoveCandidate(who);
    }

    /** Walks `snapshot` while the candidates in storage shrink under it. */
    method KickStaleCandidates(snapshot: seq<Candidate>) returns (active: seq<Account>)
      modifies this
      ensures (Now(), active) == KickAll(cfg, old(Now()), snapshot)
      ensures |active| <= |snapshot|
    {
      active := [];
      for i := 0 to |snapshot|
        invariant (Now(), active) == KickAll(cfg, old(Now()), snapshot[..i])
        invariant |active| <= i
      {
        PrefixStep(snapshot, i);
        var c := snapshot[i];
        var sinceLast := SaturatingSub(now, Of(lastAuthored, c.who));
        if sinceLast < cfg.kickThreshold || |candidates| <= cfg.minCandidates {
          active := active + [c.who];
        } else {
          ghost var before := active;
          var outcome := TryRemoveCandidate(c.who);
          assert active + [] == before;
        }
      }
      assert snapshot[..|snapshot|] == snapshot;
    }

    method AssembleCollators(active: seq<Account>) returns (collators: seq<Account>)
      ensures collators == invulnerables + active
    {
      collators := invulnerables;
      for i := 0 to |active|
        invariant collators == invulnerables + active[..i]
      {
        PrefixStep(active, i);
        collators := collators + [active[i]];
      }
      assert active[..|active|] == active;
    }

    /** `removed` feeds the weight; the subtraction is on unsigned integers. */
    method NewSession() returns (collators: seq<Account>, removed: nat)
      modifies this
      ensures (Now(), collators) == C.NewSession(cfg, old(Now()))
      ensures removed == |old(candidates)| - |KickAll(cfg, old(Now()), old(candidates)).1|
    {
      var snapshot := candidates;
      var active := KickStaleCandidates(snapshot);
      removed := |snapshot| - |active|;
      collators := AssembleCollators(active);
    }

    method NoteAuthor(author: Account)
      modifies this
      ensures Now() == C.NoteAuthor(cfg, old(Now()), author)
    {
      var reward := SaturatingSub(Of(free, cfg.pot), cfg.existentialDeposit) / 2;
      var paid := Transfer(cfg, Now(), cfg.pot, author, reward);
      if paid.Some? {
        free := paid.value;
      }
      lastAuthored := lastAuthored[author := now];
    }

    /** The calls take exactly the steps that runs are made of. */
    method Perform(step: Step)
      modifies this
      ensures Now() == Next(cfg, old(Now()), step)
    {
      match step {
        case DoSetInvulnerables(accounts, keysOf) => var _ := SetInvulnerables(accounts, keysOf);
        case DoSetDesired(max) => SetDesiredCandidates(max);
        case DoSetBond(amount) => SetCandidacyBond(amount);
        case DoRegister(who, keys, unlocked) => var _ := RegisterAsCandidate(who, keys, unlocked);
        case DoLeave(who) => var _ := LeaveIntent(who);
        case DoNoteAuthor(author) => NoteAuthor(author);
        case DoNewSession => var _, _ := NewSession();
        case NextBlock => now := now + 1;
        case External(a, amount, foreign) =>
          free, reserved := free[a := amount], reserved[a := foreign + Deposit(candidates, a)];
      }
    }
  }

  lemma {:induction false} FirstKeyErrorDecides(accounts: seq<Account>, keys: Account -> Keys, n: nat)
    requires n <= |accounts| && CheckKeys(accounts[..n], keys).Some?
    ensures CheckKeys(accounts, keys) == CheckKeys(accounts[..n], keys)
    decreases |accounts|
  {
    if n == |accounts| {
      assert accounts[..n] == accounts;
    } else {
      var m := |accounts| - 1;
      assert accounts[..m][..n] == accounts[..n];
      FirstKeyErrorDecides(accounts[..m], keys, n);
    }
  }
}
