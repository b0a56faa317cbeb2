/** The kick loop in closed form, and what every call keeps. */
module CollatorProofs {
  import opened Primitives
  import opened Collators

  ghost predicate Distinct<T>(s: seq<T>) {
    forall i, j | 0 <= i < j < |s| :: s[i] != s[j]
  }

  // ---------------------------------------------------------------- specification of the kick

  function Stales(cfg: Config, now: nat, last: Amounts, cs: seq<Candidate>): (n: nat)
    ensures n <= |cs|
  {
    if cs == [] then 0
    else Stales(cfg, now, last, cs[..|cs| - 1]) + if Stale(cfg, now, last, cs[|cs| - 1]) then 1 else 0
  }

  /** `cs` without its first `quota` stale entries. */
  function Kept(cfg: Config, now: nat, last: Amounts, cs: seq<Candidate>, quota: nat): seq<Candidate> {
    if cs == [] then []
    else
      var n := |cs| - 1;
      Kept(cfg, now, last, cs[..n], quota) +
      if Stale(cfg, now, last, cs[n]) && Stales(cfg, now, last, cs[..n]) < quota then [] else [cs[n]]
  }

  /** How many candidates can go before the minimum is reached. */
  function Quota(cfg: Config, cs: seq<Candidate>): nat {
    SaturatingSub(|cs|, cfg.minCandidates)
  }

  lemma {:induction false} KeptSize(cfg: Config, now: nat, last: Amounts, cs: seq<Candidate>, quota: nat)
    ensures |Kept(cfg, now, last, cs, quota)| == |cs| - Min(Stales(cfg, now, last, cs), quota)
  {
    if cs != [] {
      KeptSize(cfg, now, last, cs[..|cs| - 1], quota);
    }
  }

  /** An entry goes if and only if it is stale and fewer than `quota` stale entries precede it. */
  lemma {:induction false} KeptIff(cfg: Config, now: nat, last: Amounts, cs: seq<Candidate>, quota: nat, i: nat)
    requires Distinct(Whos(cs)) && i < |cs|
    ensures cs[i] in Kept(cfg, now, last, cs, quota)
      <==> !(Stale(cfg, now, last, cs[i]) && Stales(cfg, now, last, cs[..i]) < quota)
    decreases |cs|
  {
    hide Stale;
    var n := |cs| - 1;
    DistinctPrefix(cs, n);
    KeptSubset(cfg, now, last, cs[..n], quota);
    if i < n {
      assert cs[..n][..i] == cs[..i];
      KeptIff(cfg, now, last, cs[..n], quota, i);
      assert Whos(cs)[i] != Whos(cs)[n];
    } else {
      forall j | 0 <= j < n ensures cs[j] != cs[n] {
        assert Whos(cs)[j] != Whos(cs)[n];
      }
    }
  }

  lemma {:induction false} KeptSubset(cfg: Config, now: nat, last: Amounts, cs: seq<Candidate>, quota: nat)
    ensures forall c | c in Kept(cfg, now, last, cs, quota) :: c in cs
  {
    if cs != [] {
      KeptSubset(cfg, now, last, cs[..|cs| - 1], quota);
    }
  }

  /** A stale entry survives only when the quota is used up. */
  lemma {:induction false} StaleKept(cfg: Config, now: nat, last: Amounts, cs: seq<Candidate>, quota: nat, c: Candidate)
    requires c in Kept(cfg, now, last, cs, quota) && Stale(cfg, now, last, c)
    ensures quota <= Stales(cfg, now, last, cs)
  {
    var n := |cs| - 1;
    if c in Kept(cfg, now, last, cs[..n], quota) {
      StaleKept(cfg, now, last, cs[..n], quota, c);
    }
  }

  lemma DistinctPrefix(cs: seq<Candidate>, n: nat)
    requires Distinct(Whos(cs)) && n <= |cs|
    ensures Distinct(Whos(cs[..n]))
  {
    forall i, j | 0 <= i < j < n ensures Whos(cs[..n])[i] != Whos(cs[..n])[j] {
      assert Whos(cs)[i] != Whos(cs)[j];
    }
  }

  // ---------------------------------------------------------------- candidate lists

  lemma IndexIs(cs: seq<Candidate>, i: nat)
    requires Distinct(Whos(cs)) && i < |cs|
    ensures IndexOf(cs, cs[i].who) == i
  {
    var k := IndexOf(cs, cs[i].who);
    assert Whos(cs)[Min(k, i)] == cs[i].who && Whos(cs)[i] == cs[i].who;
  }

  lemma DepositIs(cs: seq<Candidate>, c: Candidate)
    requires Distinct(Whos(cs)) && c in cs
    ensures IsCandidate(cs, c.who) && Deposit(cs, c.who) == c.deposit
  {
    var i :| 0 <= i < |cs| && cs[i] == c;
    IndexIs(cs, i);
  }

  /** Removing entry `i` of a list without repeats changes the answer for that account only. */
  lemma RemoveAt(cs: seq<Candidate>, i: nat, a: Account)
    requires Distinct(Whos(cs)) && i < |cs|
    ensures var cs' := cs[..i] + cs[i + 1..];
      && Distinct(Whos(cs'))
      && (IsCandidate(cs', a) <==> IsCandidate(cs, a) && a != cs[i].who)
      && Deposit(cs', a) == (if a == cs[i].who then 0 else Deposit(cs, a))
  {
    hide IndexOf;
    var cs' := cs[..i] + cs[i + 1..];
    forall j, k | 0 <= j < k < |cs'| ensures Whos(cs')[j] != Whos(cs')[k] {
      var j', k' := if j < i then j else j + 1, if k < i then k else k + 1;
      assert Whos(cs)[j'] != Whos(cs)[k'];
    }
    var k, k' := IndexOf(cs, a), IndexOf(cs', a);
    if k' < |cs'| {
      var m := if k' < i then k' else k' + 1;
      assert cs[m] == cs'[k'];
      IndexIs(cs, m);
      IndexIs(cs, i);
    }
    if k < |cs| && k != i {
      var m := if k < i then k else k - 1;
      assert cs'[m] == cs[k];
      IndexIs(cs', m);
    }
  }

  lemma RemoveAtMembers(cs: seq<Candidate>, i: nat, d: Candidate)
    requires Distinct(Whos(cs)) && i < |cs| && d in cs[..i] + cs[i + 1..]
    ensures d in cs && d.who != cs[i].who
  {
    var cs' := cs[..i] + cs[i + 1..];
    var k :| 0 <= k < |cs'| && cs'[k] == d;
    var m := if k < i then k else k + 1;
    assert cs[m] == d;
    IndexIs(cs, m);
    IndexIs(cs, i);
  }

  lemma AppendTo(cs: seq<Candidate>, c: Candidate, a: Account)
    requires Distinct(Whos(cs)) && !IsCandidate(cs, c.who)
    ensures Distinct(Whos(cs + [c]))
    ensures IsCandidate(cs + [c], a) <==> IsCandidate(cs, a) || a == c.who
    ensures Deposit(cs + [c], a) == if a == c.who then c.deposit else Deposit(cs, a)
  {
    var cs' := cs + [c];
    forall j, k | 0 <= j < k < |cs'| ensures Whos(cs')[j] != Whos(cs')[k] {
      if k < |cs| {
        assert Whos(cs)[j] != Whos(cs)[k];
      }
    }
    var i, i' := IndexOf(cs, a), IndexOf(cs', a);
    if i < |cs| {
      assert cs'[i] == cs[i];
      IndexIs(cs', i);
    } else if a == c.who {
      IndexIs(cs', |cs|);
    }
  }

  // ---------------------------------------------------------------- the invariant

  /** Candidates never repeat and never exceed the maximum; each has a last-authored entry and its
      deposit in reserve. */
  ghost predicate Inv(cfg: Config, s: State) {
    && Distinct(Whos(s.candidates))
    && |s.candidates| <= cfg.maxCandidates
    && (forall c | c in s.candidates :: c.who in s.lastAuthored)
    && (forall c | c in s.candidates :: Of(s.reserved, c.who) >= c.deposit)
  }

  /** What an account has here besides its deposit. */
  function Foreign(s: State, a: Account): int {
    Of(s.reserved, a) - Deposit(s.candidates, a)
  }

  /** No account gains or loses, and no other pallet's reserve is touched. */
  ghost predicate Conserves(s: State, s': State) {
    forall a: Account ::
      && Of(s'.free, a) + Of(s'.reserved, a) == Of(s.free, a) + Of(s.reserved, a)
      && Foreign(s', a) == Foreign(s, a)
  }

  lemma ConservesTwice(s: State, s1: State, s2: State)
    requires Conserves(s, s1) && Conserves(s1, s2)
    ensures Conserves(s, s2)
  {
  }

  lemma RemoveIs(cfg: Config, s: State, i: nat)
    requires Inv(cfg, s) && i < |s.candidates|
    ensures var c, r := s.candidates[i], Remove(s, s.candidates[i].who);
      && r.Ok?
      && r.value == s.(
        candidates := s.candidates[..i] + s.candidates[i + 1..],
        free := s.free[c.who := Of(s.free, c.who) + c.deposit],
        reserved := s.reserved[c.who := Of(s.reserved, c.who) - c.deposit],
        lastAuthored := s.lastAuthored - {c.who})
  {
    IndexIs(s.candidates, i);
    assert s.candidates[i] in s.candidates;
  }

  /** Removing a candidate succeeds, returns the whole deposit, and keeps the invariant. */
  lemma RemoveKeeps(cfg: Config, s: State, i: nat)
    requires Inv(cfg, s) && i < |s.candidates|
    ensures var c, r := s.candidates[i], Remove(s, s.candidates[i].who);
      && r.Ok?
      && Of(r.value.free, c.who) == Of(s.free, c.who) + c.deposit
      && r.value.lastAuthored == s.lastAuthored - {c.who}
      && Inv(cfg, r.value) && Conserves(s, r.value)
      && !IsCandidate(r.value.candidates, c.who)
      && (forall d | d in r.value.candidates ::
            d in s.candidates && Of(r.value.lastAuthored, d.who) == Of(s.lastAuthored, d.who))
  {
    var c := s.candidates[i];
    RemoveIs(cfg, s, i);
    var s' := Remove(s, c.who).value;
    IndexIs(s.candidates, i);
    forall a: Account
      ensures Of(s'.free, a) + Of(s'.reserved, a) == Of(s.free, a) + Of(s.reserved, a)
      ensures Foreign(s', a) == Foreign(s, a)
    {
      RemoveAt(s.candidates, i, a);
    }
    RemoveAt(s.candidates, i, c.who);
    forall d | d in s'.candidates ensures d in s.candidates && d.who != c.who {
      RemoveAtMembers(s.candidates, i, d);
    }
  }

  lemma RegisterConserves(cfg: Config, s: State, who: Account, keys: Keys, unlocked: bool)
    requires Inv(cfg, s) && Register(cfg, s, who, keys, unlocked).Ok?
    ensures Conserves(s, Register(cfg, s, who, keys, unlocked).value)
  {
    hide Inv;
    var s' := Register(cfg, s, who, keys, unlocked).value;
    InvGivesDistinct(cfg, s);
    forall a: Account ensures Foreign(s', a) == Foreign(s, a) {
      AppendTo(s.candidates, Candidate(who, s.bond), a);
    }
  }

  lemma InvGivesDistinct(cfg: Config, s: State)
    requires Inv(cfg, s)
    ensures Distinct(Whos(s.candidates))
  {
  }

  lemma RegisterKeeps(cfg: Config, s: State, who: Account, keys: Keys, unlocked: bool)
    requires Inv(cfg, s) && Register(cfg, s, who, keys, unlocked).Ok?
    ensures var s' := Register(cfg, s, who, keys, unlocked).value;
      Inv(cfg, s') && Conserves(s, s') && |s'.candidates| == |s.candidates| + 1
  {
    hide Conserves, Foreign, Deposit;
    var s' := Register(cfg, s, who, keys, unlocked).value;
    RegisterConserves(cfg, s, who, keys, unlocked);
    AppendTo(s.candidates, Candidate(who, s.bond), who);
    forall c | c in s'.candidates ensures Of(s'.reserved, c.who) >= c.deposit && c.who in s'.lastAuthored {
      if c in s.candidates {
        assert Of(s.reserved, c.who) >= c.deposit;
      }
    }
  }

  /** Registering and leaving again, which the minimum permits, restores every balance and the
      list; only a last-authored entry from before is gone. */
  lemma LeaveUndoesRegister(cfg: Config, s: State, who: Account, keys: Keys, unlocked: bool)
    requires Inv(cfg, s) && Register(cfg, s, who, keys, unlocked).Ok?
    requires |s.candidates| >= cfg.minCandidates
    ensures var r := Leave(cfg, Register(cfg, s, who, keys, unlocked).value, who);
      && r.Ok?
      && r.value == s.(free := r.value.free, reserved := r.value.reserved, lastAuthored := s.lastAuthored - {who})
      && (forall a :: Of(r.value.free, a) == Of(s.free, a) && Of(r.value.reserved, a) == Of(s.reserved, a))
  {
    hide Inv, Conserves;
    var s1 := Register(cfg, s, who, keys, unlocked).value;
    var n := |s.candidates|;
    RegisterKeeps(cfg, s, who, keys, unlocked);
    assert s1.candidates[n] == Candidate(who, s.bond);
    RemoveIs(cfg, s1, n);
    assert s1.candidates[..n] + s1.candidates[n + 1..] == s.candidates;
    assert s1.lastAuthored - {who} == s.lastAuthored - {who};
  }

  // ---------------------------------------------------------------- which calls are accepted

  predicate Registerable(s: State, who: Account, keys: Keys) {
    && |s.candidates| < s.desired
    && who !in s.invulnerables
    && keys == Registered
    && who !in Whos(s.candidates)
  }

  predicate CanReserve(s: State, who: Account, unlocked: bool) {
    s.bond == 0 || (unlocked && s.bond <= Of(s.free, who))
  }

  predicate RegisterFits(cfg: Config, s: State, who: Account, keys: Keys, unlocked: bool) {
    Registerable(s, who, keys) && CanReserve(s, who, unlocked) && |s.candidates| < cfg.maxCandidates
  }

  predicate RegisterFault(cfg: Config, s: State, who: Account, keys: Keys, unlocked: bool, e: Error) {
    var wanted := |s.candidates| < s.desired;
    var eligible := wanted && who !in s.invulnerables;
    match e
    case TooManyCandidates =>
      !wanted || (Registerable(s, who, keys) && CanReserve(s, who, unlocked) && |s.candidates| >= cfg.maxCandidates)
    case AlreadyInvulnerable => wanted && who in s.invulnerables
    case NoAssociatedValidatorId => eligible && keys == NoValidatorId
    case ValidatorNotRegistered => eligible && keys == NotRegistered
    case AlreadyCandidate => eligible && keys == Registered && who in Whos(s.candidates)
    case CannotReserve => Registerable(s, who, keys) && !CanReserve(s, who, unlocked)
    case _ => false
  }

  /** A registration is accepted exactly when there is room under both limits, the account is neither
      invulnerable nor a candidate, its session keys are registered, and the bond can be reserved;
      the candidate goes to the end of the list. Otherwise each error has its own condition. */
  lemma RegisterIff(cfg: Config, s: State, who: Account, keys: Keys, unlocked: bool)
    ensures var r := Register(cfg, s, who, keys, unlocked);
      && (r.Ok? <==> RegisterFits(cfg, s, who, keys, unlocked))
      && (r.Ok? ==> r.value.candidates == s.candidates + [Candidate(who, s.bond)])
      && forall e :: r == Err(e) <==> RegisterFault(cfg, s, who, keys, unlocked, e)
  {
    CandidateIff(s.candidates, who);
  }

  lemma CandidateIff(cs: seq<Candidate>, who: Account)
    ensures IsCandidate(cs, who) <==> who in Whos(cs)
  {
    var i := IndexOf(cs, who);
    if i < |cs| {
      assert Whos(cs)[i] == who;
    }
  }

  /** Only candidates can leave, and only while there are more than the minimum. */
  lemma LeaveIff(cfg: Config, s: State, who: Account)
    ensures var r := Leave(cfg, s, who);
      && (r.Ok? <==> |s.candidates| > cfg.minCandidates && who in Whos(s.candidates))
      && forall e :: r == Err(e) <==>
           match e
           case TooFewCandidates => |s.candidates| <= cfg.minCandidates
           case NotCandidate => |s.candidates| > cfg.minCandidates && who !in Whos(s.candidates)
           case _ => false
  {
    CandidateIff(s.candidates, who);
  }

  predicate KeyFault(keys: Keys, e: Error) {
    match e
    case NoAssociatedValidatorId => keys == NoValidatorId
    case ValidatorNotRegistered => keys == NotRegistered
    case _ => false
  }

  /** Accounts are accepted as invulnerable exactly when all of them have registered keys. */
  lemma {:induction false} CheckKeysIff(accounts: seq<Account>, keys: Account -> Keys)
    ensures CheckKeys(accounts, keys) == None <==> forall a | a in accounts :: keys(a) == Registered
  {
    if accounts != [] {
      var n := |accounts| - 1;
      CheckKeysIff(accounts[..n], keys);
      assert accounts == accounts[..n] + [accounts[n]];
    }
  }

  /** The first account whose keys are not registered decides the error. */
  lemma {:induction false} CheckKeysFault(accounts: seq<Account>, keys: Account -> Keys, e: Error)
    ensures CheckKeys(accounts, keys) == Some(e) <==> exists i | 0 <= i < |accounts| ::
      KeyFault(keys(accounts[i]), e) && forall j | 0 <= j < i :: keys(accounts[j]) == Registered
  {
    if accounts != [] {
      var n := |accounts| - 1;
      CheckKeysFault(accounts[..n], keys, e);
      CheckKeysIff(accounts[..n], keys);
      assert accounts == accounts[..n] + [accounts[n]];
      if CheckKeys(accounts, keys) == Some(e) && CheckKeys(accounts[..n], keys) == None {
        assert KeyFault(keys(accounts[n]), e);
        assert forall j | 0 <= j < n :: accounts[j] in accounts[..n];
      }
    }
  }

  predicate InvulnerablesFault(cfg: Config, accounts: seq<Account>, keys: Account -> Keys, e: Error) {
    if |accounts| > cfg.maxInvulnerables then e == TooManyInvulnerables
    else exists i | 0 <= i < |accounts| ::
      KeyFault(keys(accounts[i]), e) && forall j | 0 <= j < i :: keys(accounts[j]) == Registered
  }

  /** A list of invulnerables is accepted, and stored as it is, exactly when it is not too long and
      all its accounts have registered keys. */
  lemma SetInvulnerablesIff(cfg: Config, s: State, accounts: seq<Account>, keys: Account -> Keys)
    ensures var r := SetInvulnerables(cfg, s, accounts, keys);
      && (r.Ok? <==> |accounts| <= cfg.maxInvulnerables && forall a | a in accounts :: keys(a) == Registered)
      && (r.Ok? ==> r.value == s.(invulnerables := accounts))
      && forall e :: r == Err(e) <==> InvulnerablesFault(cfg, accounts, keys, e)
  {
    CheckKeysIff(accounts, keys);
    forall e
      ensures CheckKeys(accounts, keys) == Some(e) <==> exists i | 0 <= i < |accounts| ::
        KeyFault(keys(accounts[i]), e) && forall j | 0 <= j < i :: keys(accounts[j]) == Registered
    {
      CheckKeysFault(accounts, keys, e);
    }
  }

  // ---------------------------------------------------------------- the kick loop

  /** Where the loop stands after the first `i` entries of a snapshot of the current candidates. */
  ghost predicate LoopAt(cfg: Config, s: State, i: nat, s': State, active: seq<Account>)
    requires i <= |s.candidates|
  {
    var kept := Kept(cfg, s.now, s.lastAuthored, s.candidates[..i], Quota(cfg, s.candidates));
    && s'.candidates == kept + s.candidates[i..]
    && active == Whos(kept)
    && s'.invulnerables == s.invulnerables && s'.now == s.now && s'.bond == s.bond && s'.desired == s.desired
    && Inv(cfg, s') && Conserves(s, s')
    && (forall c | c in s'.candidates :: Of(s'.lastAuthored, c.who) == Of(s.lastAuthored, c.who))
  }

  lemma RemoveMiddle(cfg: Config, s: State, kept: seq<Candidate>, c: Candidate, rest: seq<Candidate>)
    requires Inv(cfg, s) && s.candidates == kept + [c] + rest
    ensures var r := Remove(s, c.who);
      && r.Ok?
      && r.value.candidates == kept + rest
      && r.value.invulnerables == s.invulnerables && r.value.now == s.now
      && r.value.bond == s.bond && r.value.desired == s.desired
      && Inv(cfg, r.value) && Conserves(s, r.value)
      && (forall d | d in r.value.candidates ::
            d in s.candidates && Of(r.value.lastAuthored, d.who) == Of(s.lastAuthored, d.who))
  {
    hide Inv, Conserves, Remove;
    var i := |kept|;
    assert s.candidates[i] == c;
    RemoveIs(cfg, s, i);
    RemoveKeeps(cfg, s, i);
    assert s.candidates[..i] == kept && s.candidates[i + 1..] == rest;
  }

  lemma KeptStep(cfg: Config, now: nat, last: Amounts, cs: seq<Candidate>, quota: nat, i: nat)
    requires i < |cs|
    ensures Kept(cfg, now, last, cs[..i + 1], quota)
         == Kept(cfg, now, last, cs[..i], quota)
          + if Stale(cfg, now, last, cs[i]) && Stales(cfg, now, last, cs[..i]) < quota then [] else [cs[i]]
  {
    PrefixStep(cs, i);
  }

  lemma KickTurn(cfg: Config, s: State, i: nat, s1: State, active: seq<Account>)
    requires Inv(cfg, s) && i < |s.candidates| && LoopAt(cfg, s, i, s1, active)
    ensures var (s2, more) := KickOne(cfg, s1, s.candidates[i]);
      LoopAt(cfg, s, i + 1, s2, active + more)
  {
    hide Inv, Conserves, Remove, IndexOf, Kept, Stales;
    var c, cs, last, quota := s.candidates[i], s.candidates, s.lastAuthored, Quota(cfg, s.candidates);
    var kept := Kept(cfg, s.now, last, cs[..i], quota);
    KeptStep(cfg, s.now, last, cs, quota, i);
    KeptSize(cfg, s.now, last, cs[..i], quota);
    assert s1.candidates == kept + [c] + cs[i + 1..];
    assert c in s1.candidates;
    assert (|s1.candidates| <= cfg.minCandidates) <==> (Stales(cfg, s.now, last, cs[..i]) >= quota);
    if Stale(cfg, s.now, last, c) && Stales(cfg, s.now, last, cs[..i]) < quota {
      RemoveMiddle(cfg, s1, kept, c, cs[i + 1..]);
      ConservesTwice(s, s1, Remove(s1, c.who).value);
      assert active + [] == active && kept + [] == kept;
    } else {
      assert Whos(kept + [c]) == Whos(kept) + [c.who];
    }
  }

  lemma LoopStarts(cfg: Config, s: State)
    requires Inv(cfg, s)
    ensures LoopAt(cfg, s, 0, s, [])
  {
    hide Inv;
    assert s.candidates[..0] == [] && s.candidates[0..] == s.candidates;
  }

  lemma {:induction false} KickPrefix(cfg: Config, s: State, i: nat)
    requires Inv(cfg, s) && i <= |s.candidates|
    ensures var (s', active) := KickAll(cfg, s, s.candidates[..i]);
      LoopAt(cfg, s, i, s', active)
  {
    hide Inv, LoopAt, KickOne;
    if i == 0 {
      LoopStarts(cfg, s);
    } else {
      KickPrefix(cfg, s, i - 1);
      PrefixStep(s.candidates, i - 1);
      var (s1, active) := KickAll(cfg, s, s.candidates[..i - 1]);
      KickTurn(cfg, s, i - 1, s1, active);
    }
  }

  /** Walking a snapshot of the candidates while storage shrinks under it removes exactly the first
      min(#stale, len - MinCandidates) stale ones, in list order, and returns those left in storage. */
  lemma KickClosedForm(cfg: Config, s: State)
    requires Inv(cfg, s)
    ensures var (s', active) := KickAll(cfg, s, s.candidates);
      && s'.candidates == Kept(cfg, s.now, s.lastAuthored, s.candidates, Quota(cfg, s.candidates))
      && active == Whos(s'.candidates) && Distinct(active)
      && |s'.candidates| == |s.candidates|
           - Min(Stales(cfg, s.now, s.lastAuthored, s.candidates), Quota(cfg, s.candidates))
      && s'.now == s.now && s'.bond == s.bond && s'.desired == s.desired && s'.invulnerables == s.invulnerables
      && Inv(cfg, s') && Conserves(s, s')
      && (forall c | c in s'.candidates :: Of(s'.lastAuthored, c.who) == Of(s.lastAuthored, c.who))
  {
    KickPrefix(cfg, s, |s.candidates|);
    assert s.candidates[..|s.candidates|] == s.candidates;
    KeptSize(cfg, s.now, s.lastAuthored, s.candidates, Quota(cfg, s.candidates));
  }

  /** A candidate that a session change leaves although it is stale is protected by the minimum. */
  lemma StaleSurvivorsNeedMinimum(cfg: Config, s: State, c: Candidate)
    requires Inv(cfg, s)
    requires c in KickAll(cfg, s, s.candidates).0.candidates && Stale(cfg, s.now, s.lastAuthored, c)
    ensures |KickAll(cfg, s, s.candidates).0.candidates| <= cfg.minCandidates
  {
    KickClosedForm(cfg, s);
    StaleKept(cfg, s.now, s.lastAuthored, s.candidates, Quota(cfg, s.candidates), c);
  }

  /** The loop takes entry `i`: it is stale, and fewer stale entries than the quota precede it. */
  predicate Goes(cfg: Config, s: State, i: nat)
    requires i < |s.candidates|
  {
    && Stale(cfg, s.now, s.lastAuthored, s.candidates[i])
    && Stales(cfg, s.now, s.lastAuthored, s.candidates[..i]) < Quota(cfg, s.candidates)
  }

  /** Whether a candidate outlives a session change can be read off the state before it. */
  lemma RemovedIff(cfg: Config, s: State, i: nat)
    requires Inv(cfg, s) && i < |s.candidates|
    ensures !IsCandidate(NewSession(cfg, s).0.candidates, s.candidates[i].who) <==> Goes(cfg, s, i)
  {
    hide Inv, Conserves, KickAll, Kept, Stales, Stale, IndexOf;
    var c, cs, cs' := s.candidates[i], s.candidates, NewSession(cfg, s).0.candidates;
    InvGivesDistinct(cfg, s);
    KickClosedForm(cfg, s);
    KeptIff(cfg, s.now, s.lastAuthored, cs, Quota(cfg, cs), i);
    KeptSubset(cfg, s.now, s.lastAuthored, cs, Quota(cfg, cs));
    if c in cs' {
      DepositIs(cs', c);
    }
    if IsCandidate(cs', c.who) {
      SameWhoSame(cs, c, cs'[IndexOf(cs', c.who)]);
    }
  }

  lemma SameWhoSame(cs: seq<Candidate>, c: Candidate, d: Candidate)
    requires Distinct(Whos(cs)) && c in cs && d in cs && c.who == d.who
    ensures c == d
  {
    var i :| 0 <= i < |cs| && cs[i] == c;
    var j :| 0 <= j < |cs| && cs[j] == d;
    IndexIs(cs, i);
    IndexIs(cs, j);
  }

  // ---------------------------------------------------------------- the collator list

  lemma PartsDistinctIff(cfg: Config, s: State)
    requires Inv(cfg, s)
    ensures var (s', collators) := NewSession(cfg, s);
      Distinct(collators) <==>
        Distinct(s.invulnerables) && forall c | c in s'.candidates :: c.who !in s.invulnerables
  {
    hide Inv, Conserves, KickAll, Kept, Stales;
    KickClosedForm(cfg, s);
    var (s', collators) := NewSession(cfg, s);
    var inv, whos := s.invulnerables, Whos(s'.candidates);
    if Distinct(collators) {
      forall i, j | 0 <= i < j < |inv| ensures inv[i] != inv[j] {
        assert collators[i] != collators[j];
      }
      forall k, i | 0 <= k < |whos| && 0 <= i < |inv| ensures inv[i] != whos[k] {
        assert collators[i] != collators[|inv| + k];
      }
      assert forall k | 0 <= k < |whos| :: s'.candidates[k].who == whos[k];
    }
    if Distinct(inv) && forall c | c in s'.candidates :: c.who !in inv {
      forall i, j | 0 <= i < j < |collators| ensures collators[i] != collators[j] {
        if j >= |inv| {
          var c := s'.candidates[j - |inv|];
          assert c in s'.candidates;
          assert collators[j] == whos[j - |inv|] == c.who;
          if i >= |inv| {
            assert whos[i - |inv|] != whos[j - |inv|];
          } else {
            assert inv[i] in inv;
          }
        }
      }
    }
  }

  /** The list handed to the session pallet names nobody twice exactly when the invulnerables are
      distinct and every candidate among them is one that the kick takes. */
  lemma CollatorsDistinctIff(cfg: Config, s: State)
    requires Inv(cfg, s)
    ensures Distinct(NewSession(cfg, s).1) <==>
      && Distinct(s.invulnerables)
      && forall i | 0 <= i < |s.candidates| && s.candidates[i].who in s.invulnerables :: Goes(cfg, s, i)
  {
    hide Inv, Conserves, KickAll, Kept, Goes, IndexOf;
    var cs, cs' := s.candidates, NewSession(cfg, s).0.candidates;
    PartsDistinctIff(cfg, s);
    KickClosedForm(cfg, s);
    KeptSubset(cfg, s.now, s.lastAuthored, cs, Quota(cfg, cs));
    forall i | 0 <= i < |cs| ensures !IsCandidate(cs', cs[i].who) <==> Goes(cfg, s, i) {
      RemovedIff(cfg, s, i);
    }
    forall c | c in cs' ensures IsCandidate(cs', c.who) && c in cs {
      DepositIs(cs', c);
    }
  }

  /** An instance after two calls from genesis: an account registers, and is then named
      invulnerable, which the call allows; the next session lists it twice. */
  lemma InvulnerableCandidateListedTwice(cfg: Config, a: Account, keys: Account -> Keys)
    requires keys(a) == Registered && cfg.maxInvulnerables >= 1 && cfg.maxCandidates >= 1 && cfg.minCandidates >= 1
    ensures var genesis := State([], [], map[], 1, 0, map[], map[], 0);
      var register, name := DoRegister(a, Registered, true), DoSetInvulnerables([a], keys);
      var s := Run(cfg, genesis, [register, name]);
      && Register(cfg, genesis, a, Registered, true).Ok?
      && SetInvulnerables(cfg, Run(cfg, genesis, [register]), [a], keys).Ok?
      && NewSession(cfg, s).1 == [a, a]
  {
    var genesis := State([], [], map[], 1, 0, map[], map[], 0);
    var register, name := DoRegister(a, Registered, true), DoSetInvulnerables([a], keys);
    var steps := [register, name];
    assert steps[..1] == [register] && [register][..0] == [];
    assert Run(cfg, genesis, []) == genesis;
    assert CheckKeys([a], keys) == None by {
      assert [a][..0] == [];
    }
    var s := Run(cfg, genesis, steps);
    assert s.candidates == [Candidate(a, 0)] && s.invulnerables == [a];
    assert s.candidates[..0] == [];
    assert KickAll(cfg, s, s.candidates) == (s, [a]) by {
      assert KickAll(cfg, s, []) == (s, []);
      assert [] + [a] == [a];
    }
  }
}
