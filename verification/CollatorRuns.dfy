/** Collator selection over every run: bounds, deposits, and why a candidate is kicked. */
module CollatorRuns {
  import opened Primitives
  import opened Collators
  import opened CollatorProofs

  // ---------------------------------------------------------------- one step

  /** What a step can do to an account that is a candidate afterwards: it has just registered, or
      it was one already, with the same deposit, and only authoring changes its entry. */
  ghost predicate StaysOrJoins(cfg: Config, s: State, step: Step, who: Account) {
    var s' := Next(cfg, s, step);
    if step.DoRegister? && step.who == who && Register(cfg, s, who, step.keys, step.unlocked).Ok? then
      && Deposit(s'.candidates, who) == s.bond
      && Of(s'.lastAuthored, who) == s.now + cfg.kickThreshold
    else
      && IsCandidate(s.candidates, who)
      && Deposit(s'.candidates, who) == Deposit(s.candidates, who)
      && Of(s'.lastAuthored, who) == if step == DoNoteAuthor(who) then s.now else Of(s.lastAuthored, who)
  }

  /** The calls of the pallet itself that move no money between accounts. */
  predicate Internal(step: Step) {
    !step.DoNoteAuthor? && !step.External?
  }

  lemma SubsetStays(s: State, s': State, who: Account)
    requires Distinct(Whos(s.candidates)) && Distinct(Whos(s'.candidates)) && IsCandidate(s'.candidates, who)
    requires forall c | c in s'.candidates ::
      c in s.candidates && Of(s'.lastAuthored, c.who) == Of(s.lastAuthored, c.who)
    ensures IsCandidate(s.candidates, who) && Deposit(s'.candidates, who) == Deposit(s.candidates, who)
    ensures Of(s'.lastAuthored, who) == Of(s.lastAuthored, who)
  {
    var c := s'.candidates[IndexOf(s'.candidates, who)];
    assert c in s'.candidates;
    DepositIs(s.candidates, c);
    DepositIs(s'.candidates, c);
  }

  lemma SessionStep(cfg: Config, s: State)
    requires Inv(cfg, s)
    ensures var s' := Next(cfg, s, DoNewSession);
      && Inv(cfg, s') && Conserves(s, s')
      && |s'.candidates| <= |s.candidates|
      && (|s.candidates| >= cfg.minCandidates ==> |s'.candidates| >= cfg.minCandidates)
      && s'.desired == s.desired && s'.bond == s.bond && s'.now == s.now
      && (forall c | c in s'.candidates :: c in s.candidates && Of(s'.lastAuthored, c.who) == Of(s.lastAuthored, c.who))
  {
    KickClosedForm(cfg, s);
    KeptSubset(cfg, s.now, s.lastAuthored, s.candidates, Quota(cfg, s.candidates));
  }

  lemma LeaveStep(cfg: Config, s: State, who: Account)
    requires Inv(cfg, s) && Leave(cfg, s, who).Ok?
    ensures var s' := Next(cfg, s, DoLeave(who));
      && Inv(cfg, s') && Conserves(s, s')
      && |s'.candidates| == |s.candidates| - 1 >= cfg.minCandidates
      && (forall c | c in s'.candidates :: c in s.candidates && Of(s'.lastAuthored, c.who) == Of(s.lastAuthored, c.who))
  {
    hide Inv, Conserves;
    RemoveKeeps(cfg, s, IndexOf(s.candidates, who));
  }

  lemma ExternalStep(cfg: Config, s: State, a: Account, free: nat, foreign: nat)
    requires Inv(cfg, s)
    ensures Inv(cfg, Next(cfg, s, External(a, free, foreign)))
  {
    var s' := Next(cfg, s, External(a, free, foreign));
    forall c | c in s'.candidates ensures Of(s'.reserved, c.who) >= c.deposit {
      DepositIs(s.candidates, c);
    }
  }

  lemma StepKeepsInv(cfg: Config, s: State, step: Step)
    requires Inv(cfg, s)
    ensures Inv(cfg, Next(cfg, s, step))
    ensures Internal(step) ==> Conserves(s, Next(cfg, s, step))
  {
    match step {
      case DoRegister(who, keys, unlocked) =>
        if Register(cfg, s, who, keys, unlocked).Ok? {
          RegisterKeeps(cfg, s, who, keys, unlocked);
        }
      case DoLeave(who) =>
        if Leave(cfg, s, who).Ok? {
          LeaveStep(cfg, s, who);
        }
      case DoNewSession => SessionStep(cfg, s);
      case External(a, free, foreign) => ExternalStep(cfg, s, a, free, foreign);
      case _ =>
    }
  }

  /** The count never falls through the minimum, and never grows at or above the desired number. */
  lemma StepBounds(cfg: Config, s: State, step: Step)
    requires Inv(cfg, s)
    ensures |s.candidates| >= cfg.minCandidates ==> |Next(cfg, s, step).candidates| >= cfg.minCandidates
    ensures |s.candidates| >= s.desired ==> |Next(cfg, s, step).candidates| <= |s.candidates|
  {
    match step {
      case DoLeave(who) =>
        if Leave(cfg, s, who).Ok? {
          LeaveStep(cfg, s, who);
        }
      case DoNewSession => SessionStep(cfg, s);
      case _ =>
    }
  }

  lemma RegisterJoins(cfg: Config, s: State, w: Account, keys: Keys, unlocked: bool, who: Account)
    requires Inv(cfg, s) && Register(cfg, s, w, keys, unlocked).Ok?
    requires IsCandidate(Next(cfg, s, DoRegister(w, keys, unlocked)).candidates, who)
    ensures StaysOrJoins(cfg, s, DoRegister(w, keys, unlocked), who)
  {
    AppendTo(s.candidates, Candidate(w, s.bond), who);
  }

  lemma StepStaysOrJoins(cfg: Config, s: State, step: Step, who: Account)
    requires Inv(cfg, s) && IsCandidate(Next(cfg, s, step).candidates, who)
    ensures StaysOrJoins(cfg, s, step, who)
  {
    hide Inv, Conserves, KickAll, Remove, Register, IndexOf;
    var s' := Next(cfg, s, step);
    InvGivesDistinct(cfg, s);
    match step {
      case DoRegister(w, keys, unlocked) =>
        if Register(cfg, s, w, keys, unlocked).Ok? {
          RegisterJoins(cfg, s, w, keys, unlocked, who);
        }
      case DoLeave(w) =>
        if Leave(cfg, s, w).Ok? {
          LeaveStep(cfg, s, w);
          InvGivesDistinct(cfg, s');
          SubsetStays(s, s', who);
        }
      case DoNewSession =>
        SessionStep(cfg, s);
        InvGivesDistinct(cfg, s');
        SubsetStays(s, s', who);
      case _ =>
    }
  }

  /** A session change hands over the invulnerables, in their order, followed by the candidates that
      are left, in theirs. */
  lemma SessionList(cfg: Config, s: State)
    requires Inv(cfg, s)
    ensures var (s', collators) := NewSession(cfg, s);
      && collators == s.invulnerables + Whos(s'.candidates)
      && s' == Next(cfg, s, DoNewSession)
      && s'.candidates == Kept(cfg, s.now, s.lastAuthored, s.candidates, Quota(cfg, s.candidates))
  {
    hide Inv, KickAll, Kept, Stales, Conserves;
    KickClosedForm(cfg, s);
  }

  /** What each step does to everything but balances and candidates: nothing, unless it is the call
      for it. An accepted list of invulnerables replaces the old one; authoring is recorded for every
      author, candidate or not. */
  lemma StepChanges(cfg: Config, s: State, step: Step)
    requires Inv(cfg, s)
    ensures var s' := Next(cfg, s, step);
      && s'.desired == (if step.DoSetDesired? then step.desired else s.desired)
      && s'.bond == (if step.DoSetBond? then step.bond else s.bond)
      && s'.now == (if step.NextBlock? then s.now + 1 else s.now)
      && s'.invulnerables
           == (if step.DoSetInvulnerables? && |step.accounts| <= cfg.maxInvulnerables
                  && forall a | a in step.accounts :: step.keysOf(a) == Registered
               then step.accounts else s.invulnerables)
      && (step.DoNoteAuthor? ==> s'.lastAuthored == s.lastAuthored[step.author := s.now])
      && (!step.DoRegister? && !step.DoLeave? && !step.DoNewSession? ==> s'.candidates == s.candidates)
      && (step.DoSetDesired? || step.DoSetBond? || step.DoSetInvulnerables? || step.NextBlock? || step.External? ==>
            s'.lastAuthored == s.lastAuthored)
  {
    hide Inv, KickAll, Kept, Stales, Conserves, SetInvulnerables, CheckKeys, Transfer;
    match step {
      case DoSetInvulnerables(accounts, keys) => SetInvulnerablesIff(cfg, s, accounts, keys);
      case DoNewSession => KickClosedForm(cfg, s);
      case _ =>
    }
  }

  // ---------------------------------------------------------------- invariant over runs

  lemma {:induction false} RunInv(cfg: Config, genesis: State, steps: seq<Step>)
    requires genesis.candidates == []
    ensures Inv(cfg, Run(cfg, genesis, steps))
  {
    if steps != [] {
      RunInv(cfg, genesis, steps[..|steps| - 1]);
      StepKeepsInv(cfg, Run(cfg, genesis, steps[..|steps| - 1]), steps[|steps| - 1]);
    }
  }

  /** Once the count has reached the minimum it stays there for the rest of the run. */
  lemma {:induction false} RunFloor(cfg: Config, genesis: State, steps: seq<Step>, n: nat)
    requires genesis.candidates == [] && n <= |steps|
    requires |Run(cfg, genesis, steps[..n]).candidates| >= cfg.minCandidates
    ensures |Run(cfg, genesis, steps).candidates| >= cfg.minCandidates
    decreases |steps|
  {
    hide Inv, Next;
    if n == |steps| {
      assert steps[..n] == steps;
    } else {
      var m := |steps| - 1;
      assert steps[..m][..n] == steps[..n];
      RunFloor(cfg, genesis, steps[..m], n);
      RunInv(cfg, genesis, steps[..m]);
      StepBounds(cfg, Run(cfg, genesis, steps[..m]), steps[m]);
    }
  }

  // ---------------------------------------------------------------- who is let in

  /** `step`, taken in `s`, is a registration of `who` that is accepted, with registered keys. */
  predicate Joins(cfg: Config, s: State, step: Step, who: Account) {
    && step.DoRegister? && step.who == who && step.keys == Registered
    && Register(cfg, s, who, step.keys, step.unlocked).Ok?
  }

  /** Every candidate was let in by an accepted registration with registered session keys, and has
      been a candidate ever since. */
  lemma {:induction false} CandidateOrigin(cfg: Config, genesis: State, steps: seq<Step>, who: Account)
    returns (i: nat)
    requires genesis.candidates == [] && IsCandidate(Run(cfg, genesis, steps).candidates, who)
    ensures i < |steps| && Joins(cfg, Run(cfg, genesis, steps[..i]), steps[i], who)
    ensures !IsCandidate(Run(cfg, genesis, steps[..i]).candidates, who)
    ensures forall j | i < j <= |steps| :: IsCandidate(Run(cfg, genesis, steps[..j]).candidates, who)
  {
    hide Inv, Next, IsCandidate, Register;
    if steps == [] {
      NoCandidates(who);
      assert false;
    }
    var n := |steps| - 1;
    var s := Run(cfg, genesis, steps[..n]);
    RunInv(cfg, genesis, steps[..n]);
    StepStaysOrJoins(cfg, s, steps[n], who);
    assert steps[..n + 1] == steps;
    if IsCandidate(s.candidates, who) {
      i := CandidateOrigin(cfg, genesis, steps[..n], who);
      assert steps[..n][..i] == steps[..i];
      forall j | i < j <= n ensures steps[..n][..j] == steps[..j] {
      }
    } else {
      i := n;
      JoinsWithKeys(cfg, s, steps[n], who);
    }
  }

  lemma NoCandidates(who: Account)
    ensures !IsCandidate([], who)
  {
  }

  lemma JoinsWithKeys(cfg: Config, s: State, step: Step, who: Account)
    requires step.DoRegister? && step.who == who && Register(cfg, s, who, step.keys, step.unlocked).Ok?
    ensures step.keys == Registered
  {
    RegisterIff(cfg, s, who, step.keys, step.unlocked);
  }

  /** Whoever is handed to the session pallet was let in with registered session keys, as a candidate
      or as an invulnerable, or is invulnerable since genesis. */
  lemma CollatorOrigin(cfg: Config, genesis: State, steps: seq<Step>, a: Account) returns (i: nat)
    requires genesis.candidates == [] && a in NewSession(cfg, Run(cfg, genesis, steps)).1
    requires a !in genesis.invulnerables
    ensures i < |steps|
    ensures var s := Run(cfg, genesis, steps[..i]);
      || Joins(cfg, s, steps[i], a)
      || Names(cfg, s, steps[i], a)
  {
    hide Inv, Next, KickAll, Run, Conserves, IsCandidate, Register, SetInvulnerables;
    var s := Run(cfg, genesis, steps);
    RunInv(cfg, genesis, steps);
    CollatorsAre(cfg, s, a);
    if a in s.invulnerables {
      i := InvulnerableOrigin(cfg, genesis, steps, a);
    } else {
      i := CandidateOrigin(cfg, genesis, steps, a);
    }
  }

  /** `step`, taken in `s`, makes `a`, with registered keys, invulnerable and is accepted. */
  predicate Names(cfg: Config, s: State, step: Step, a: Account) {
    && step.DoSetInvulnerables? && a in step.accounts && step.keysOf(a) == Registered
    && SetInvulnerables(cfg, s, step.accounts, step.keysOf).Ok?
  }

  lemma CollatorsAre(cfg: Config, s: State, a: Account)
    requires Inv(cfg, s) && a in NewSession(cfg, s).1
    ensures a in s.invulnerables || IsCandidate(s.candidates, a)
  {
    hide Inv, KickAll, Conserves;
    var s', active := KickAll(cfg, s, s.candidates).0, KickAll(cfg, s, s.candidates).1;
    KickClosedForm(cfg, s);
    InvGivesDistinct(cfg, s);
    KeptSubset(cfg, s.now, s.lastAuthored, s.candidates, Quota(cfg, s.candidates));
    if a in active {
      var k :| 0 <= k < |active| && active[k] == a;
      assert s'.candidates[k] in s.candidates;
      DepositIs(s.candidates, s'.candidates[k]);
    }
  }

  lemma StepInvulnerables(cfg: Config, s: State, step: Step)
    requires Inv(cfg, s)
    ensures Next(cfg, s, step).invulnerables
         == if step.DoSetInvulnerables? && SetInvulnerables(cfg, s, step.accounts, step.keysOf).Ok?
            then step.accounts else s.invulnerables
    ensures forall a | step.DoSetInvulnerables? && a in Next(cfg, s, step).invulnerables ::
      a in s.invulnerables || Names(cfg, s, step, a)
  {
    match step {
      case DoSetInvulnerables(accounts, keys) => SetInvulnerablesIff(cfg, s, accounts, keys);
      case DoNewSession => KickClosedForm(cfg, s);
      case _ =>
    }
  }

  lemma {:induction false} InvulnerableOrigin(cfg: Config, genesis: State, steps: seq<Step>, a: Account)
    returns (i: nat)
    requires genesis.candidates == [] && a !in genesis.invulnerables && a in Run(cfg, genesis, steps).invulnerables
    ensures i < |steps| && Names(cfg, Run(cfg, genesis, steps[..i]), steps[i], a)
  {
    hide Inv, Next, Names, SetInvulnerables;
    var n := |steps| - 1;
    var s := Run(cfg, genesis, steps[..n]);
    RunInv(cfg, genesis, steps[..n]);
    StepInvulnerables(cfg, s, steps[n]);
    if a in s.invulnerables {
      i := InvulnerableOrigin(cfg, genesis, steps[..n], a);
      assert steps[..n][..i] == steps[..i];
    } else {
      i := n;
    }
  }

  // ---------------------------------------------------------------- deposits

  /** The bond in force when `who` last registered. */
  function PaidIn(cfg: Config, genesis: State, steps: seq<Step>, who: Account): nat {
    if steps == [] then 0
    else
      var n := |steps| - 1;
      var s := Run(cfg, genesis, steps[..n]);
      if steps[n].DoRegister? && steps[n].who == who && Register(cfg, s, who, steps[n].keys, steps[n].unlocked).Ok?
      then s.bond
      else PaidIn(cfg, genesis, steps[..n], who)
  }

  /** However often the bond changes, a candidate's deposit is what it paid in. */
  lemma {:induction false} DepositIsPaidIn(cfg: Config, genesis: State, steps: seq<Step>, who: Account)
    requires genesis.candidates == [] && IsCandidate(Run(cfg, genesis, steps).candidates, who)
    ensures Deposit(Run(cfg, genesis, steps).candidates, who) == PaidIn(cfg, genesis, steps, who)
  {
    if steps != [] {
      var n := |steps| - 1;
      var s := Run(cfg, genesis, steps[..n]);
      RunInv(cfg, genesis, steps[..n]);
      StepStaysOrJoins(cfg, s, steps[n], who);
      if IsCandidate(s.candidates, who) {
        DepositIsPaidIn(cfg, genesis, steps[..n], who);
      }
    }
  }

  /** Whoever stops being a candidate, by leaving or by being kicked, gets back at that moment
      exactly what it paid in, and the other pallets' reserves on it are as before. */
  lemma RefundIsPaidIn(cfg: Config, genesis: State, steps: seq<Step>, who: Account)
    requires genesis.candidates == [] && steps != []
    requires IsCandidate(Run(cfg, genesis, steps[..|steps| - 1]).candidates, who)
    requires !IsCandidate(Run(cfg, genesis, steps).candidates, who)
    ensures steps[|steps| - 1] == DoLeave(who) || steps[|steps| - 1] == DoNewSession
    ensures Of(Run(cfg, genesis, steps).free, who)
         == Of(Run(cfg, genesis, steps[..|steps| - 1]).free, who) + PaidIn(cfg, genesis, steps[..|steps| - 1], who)
    ensures Of(Run(cfg, genesis, steps).reserved, who) == Foreign(Run(cfg, genesis, steps[..|steps| - 1]), who)
  {
    hide Inv, KickAll;
    var n := |steps| - 1;
    var s, s' := Run(cfg, genesis, steps[..n]), Run(cfg, genesis, steps);
    RunInv(cfg, genesis, steps[..n]);
    LeavingStep(cfg, s, steps[n], who);
    StepKeepsInv(cfg, s, steps[n]);
    DepositIsPaidIn(cfg, genesis, steps[..n], who);
    assert Foreign(s', who) == Foreign(s, who);
  }

  lemma LeavingStep(cfg: Config, s: State, step: Step, who: Account)
    requires Inv(cfg, s) && IsCandidate(s.candidates, who) && !IsCandidate(Next(cfg, s, step).candidates, who)
    ensures step == DoLeave(who) || step == DoNewSession
  {
    hide Inv, KickAll, IndexOf;
    InvGivesDistinct(cfg, s);
    match step {
      case DoRegister(w, keys, unlocked) =>
        if Register(cfg, s, w, keys, unlocked).Ok? {
          AppendTo(s.candidates, Candidate(w, s.bond), who);
        }
      case DoLeave(w) =>
        if w != who && Leave(cfg, s, w).Ok? {
          RemoveAt(s.candidates, IndexOf(s.candidates, w), who);
        }
      case _ =>
    }
  }

  /** What other pallets hold in reserve on `a`: the amount they last set, or the genesis reserve. */
  function ForeignHeld(genesis: State, steps: seq<Step>, a: Account): nat {
    if steps == [] then Of(genesis.reserved, a)
    else
      match steps[|steps| - 1]
      case External(b, _, foreign) =>
        if b == a then foreign else ForeignHeld(genesis, steps[..|steps| - 1], a)
      case _ => ForeignHeld(genesis, steps[..|steps| - 1], a)
  }

  /** `step` can move money to or from `a`: a block that `a` authors, or any block if `a` is the
      pot, or another pallet acting on `a`. */
  predicate MovesMoney(cfg: Config, step: Step, a: Account) {
    match step
    case DoNoteAuthor(author) => a == author || a == cfg.pot
    case External(b, _, _) => a == b
    case _ => false
  }

  lemma StepOnBalances(cfg: Config, s: State, step: Step, a: Account)
    requires Inv(cfg, s)
    ensures var s' := Next(cfg, s, step);
      && Foreign(s', a) == (if step.External? && step.account == a then step.foreign else Foreign(s, a))
      && (!MovesMoney(cfg, step, a) ==>
            Of(s'.free, a) + Of(s'.reserved, a) == Of(s.free, a) + Of(s.reserved, a))
  {
    hide Inv, KickAll, IndexOf;
    StepKeepsInv(cfg, s, step);
  }

  /** Over every run, authored blocks and other pallets included, what is reserved on an account is
      what other pallets hold there plus its candidate deposit, 0 for who is not a candidate. */
  lemma {:induction false} ReserveIs(cfg: Config, genesis: State, steps: seq<Step>, a: Account)
    requires genesis.candidates == []
    ensures var s := Run(cfg, genesis, steps);
      Of(s.reserved, a) == ForeignHeld(genesis, steps, a) + Deposit(s.candidates, a)
  {
    hide Inv, Next;
    if steps != [] {
      var n := |steps| - 1;
      ReserveIs(cfg, genesis, steps[..n], a);
      RunInv(cfg, genesis, steps[..n]);
      StepOnBalances(cfg, Run(cfg, genesis, steps[..n]), steps[n], a);
    }
  }

  /** Registering, leaving, being kicked and everything that governance does move no money between
      accounts: only a paid block or another pallet can change somebody's total. */
  lemma {:induction false} RunConserves(cfg: Config, genesis: State, steps: seq<Step>, a: Account)
    requires genesis.candidates == [] && forall i | 0 <= i < |steps| :: !MovesMoney(cfg, steps[i], a)
    ensures var s := Run(cfg, genesis, steps);
      && Of(s.free, a) + Of(s.reserved, a) == Of(genesis.free, a) + Of(genesis.reserved, a)
      && Of(s.reserved, a) == Of(genesis.reserved, a) + Deposit(s.candidates, a)
  {
    hide Inv, Next;
    if steps != [] {
      var n := |steps| - 1;
      RunConserves(cfg, genesis, steps[..n], a);
      RunInv(cfg, genesis, steps[..n]);
      StepOnBalances(cfg, Run(cfg, genesis, steps[..n]), steps[n], a);
    }
  }

  // ---------------------------------------------------------------- why candidates are kicked

  datatype Seen = RegisteredAt(block: nat) | AuthoredAt(block: nat)

  /** The last time `who` registered or authored. */
  function LastSeen(cfg: Config, genesis: State, steps: seq<Step>, who: Account): Option<Seen> {
    if steps == [] then None
    else
      var n := |steps| - 1;
      var s := Run(cfg, genesis, steps[..n]);
      match steps[n]
      case DoNoteAuthor(author) =>
        if author == who then Some(AuthoredAt(s.now)) else LastSeen(cfg, genesis, steps[..n], who)
      case DoRegister(w, keys, unlocked) =>
        if w == who && Register(cfg, s, w, keys, unlocked).Ok? then Some(RegisteredAt(s.now))
        else LastSeen(cfg, genesis, steps[..n], who)
      case _ => LastSeen(cfg, genesis, steps[..n], who)
  }

  /** The blocks that `who` authored. */
  function Blocks(cfg: Config, genesis: State, steps: seq<Step>, who: Account): seq<nat> {
    if steps == [] then []
    else
      var n := |steps| - 1;
      Blocks(cfg, genesis, steps[..n], who) +
      if steps[n] == DoNoteAuthor(who) then [Run(cfg, genesis, steps[..n]).now] else []
  }

  lemma StepNow(cfg: Config, s: State, step: Step)
    requires Inv(cfg, s)
    ensures Next(cfg, s, step).now >= s.now
  {
    if step.DoNewSession? {
      SessionStep(cfg, s);
    }
  }

  lemma {:induction false} BlocksBeforeNow(cfg: Config, genesis: State, steps: seq<Step>, who: Account)
    requires genesis.candidates == []
    ensures var seen, now := LastSeen(cfg, genesis, steps, who), Run(cfg, genesis, steps).now;
      && (seen.Some? ==> seen.value.block <= now)
      && (forall b | b in Blocks(cfg, genesis, steps, who) :: seen.Some? && b <= seen.value.block)
  {
    if steps != [] {
      var n := |steps| - 1;
      BlocksBeforeNow(cfg, genesis, steps[..n], who);
      RunInv(cfg, genesis, steps[..n]);
      StepNow(cfg, Run(cfg, genesis, steps[..n]), steps[n]);
    }
  }

  /** A candidate's entry is the block it last authored, or K after the block it registered at. */
  lemma {:induction false} EntryIsLastSeen(cfg: Config, genesis: State, steps: seq<Step>, who: Account)
    requires genesis.candidates == [] && IsCandidate(Run(cfg, genesis, steps).candidates, who)
    ensures match LastSeen(cfg, genesis, steps, who)
      case Some(AuthoredAt(b)) => Of(Run(cfg, genesis, steps).lastAuthored, who) == b
      case Some(RegisteredAt(b)) => Of(Run(cfg, genesis, steps).lastAuthored, who) == b + cfg.kickThreshold
      case None => false
  {
    hide Inv, KickAll;
    if steps != [] {
      var n := |steps| - 1;
      var s := Run(cfg, genesis, steps[..n]);
      RunInv(cfg, genesis, steps[..n]);
      StepStaysOrJoins(cfg, s, steps[n], who);
      if IsCandidate(s.candidates, who) {
        EntryIsLastSeen(cfg, genesis, steps[..n], who);
      }
    }
  }

  /** How long a candidate has been idle is counted from the block it last authored, or from K
      after its registration. */
  predicate Idle(cfg: Config, genesis: State, steps: seq<Step>, who: Account) {
    var n := Run(cfg, genesis, steps).now;
    match LastSeen(cfg, genesis, steps, who)
    case Some(AuthoredAt(b)) => b + cfg.kickThreshold <= n
    case Some(RegisteredAt(b)) => b + 2 * cfg.kickThreshold <= n
    case None => false
  }

  function IdleCount(cfg: Config, genesis: State, steps: seq<Step>, cs: seq<Candidate>): nat {
    if cs == [] then 0
    else
      IdleCount(cfg, genesis, steps, cs[..|cs| - 1])
        + if Idle(cfg, genesis, steps, cs[|cs| - 1].who) then 1 else 0
  }

  lemma StaleIffIdle(cfg: Config, genesis: State, steps: seq<Step>, c: Candidate)
    requires genesis.candidates == [] && IsCandidate(Run(cfg, genesis, steps).candidates, c.who)
    ensures var s := Run(cfg, genesis, steps);
      Stale(cfg, s.now, s.lastAuthored, c) <==> Idle(cfg, genesis, steps, c.who)
  {
    hide Run, LastSeen, Blocks;
    BlocksBeforeNow(cfg, genesis, steps, c.who);
    EntryIsLastSeen(cfg, genesis, steps, c.who);
  }

  lemma {:induction false} StalesAreIdle(cfg: Config, genesis: State, steps: seq<Step>, cs: seq<Candidate>)
    requires genesis.candidates == []
    requires forall c | c in cs :: IsCandidate(Run(cfg, genesis, steps).candidates, c.who)
    ensures var s := Run(cfg, genesis, steps);
      Stales(cfg, s.now, s.lastAuthored, cs) == IdleCount(cfg, genesis, steps, cs)
  {
    hide Run, Idle, Stale, IsCandidate;
    if cs != [] {
      StalesAreIdle(cfg, genesis, steps, cs[..|cs| - 1]);
      StaleIffIdle(cfg, genesis, steps, cs[|cs| - 1]);
    }
  }

  lemma CandidatesAre(cfg: Config, s: State)
    requires Inv(cfg, s)
    ensures forall c | c in s.candidates :: IsCandidate(s.candidates, c.who)
  {
    forall c | c in s.candidates ensures IsCandidate(s.candidates, c.who) {
      DepositIs(s.candidates, c);
    }
  }

  /** A session change kicks a candidate exactly when it is idle and fewer idle candidates precede
      it in the list than the minimum allows to go. */
  lemma KickedIff(cfg: Config, genesis: State, steps: seq<Step>, i: nat)
    requires genesis.candidates == [] && i < |Run(cfg, genesis, steps).candidates|
    ensures var s := Run(cfg, genesis, steps);
      !IsCandidate(Next(cfg, s, DoNewSession).candidates, s.candidates[i].who) <==>
        && Idle(cfg, genesis, steps, s.candidates[i].who)
        && IdleCount(cfg, genesis, steps, s.candidates[..i]) < Quota(cfg, s.candidates)
  {
    hide Inv, KickAll, Idle, Stale, Stales, Run, IsCandidate;
    var s := Run(cfg, genesis, steps);
    RunInv(cfg, genesis, steps);
    CandidatesAre(cfg, s);
    RemovedIff(cfg, s, i);
    StaleIffIdle(cfg, genesis, steps, s.candidates[i]);
    StalesAreIdle(cfg, genesis, steps, s.candidates[..i]);
  }

  /** A candidate removed by the session change at block `n` authored no block in (n - K, n]; and
      if it has not authored since it registered at block b, then n >= b + 2K. */
  lemma KickIsJustified(cfg: Config, genesis: State, steps: seq<Step>, i: nat)
    requires genesis.candidates == [] && i < |Run(cfg, genesis, steps).candidates|
    requires var s := Run(cfg, genesis, steps);
      !IsCandidate(Next(cfg, s, DoNewSession).candidates, s.candidates[i].who)
    ensures var s := Run(cfg, genesis, steps);
      var seen := LastSeen(cfg, genesis, steps, s.candidates[i].who);
      && (forall b | b in Blocks(cfg, genesis, steps, s.candidates[i].who) :: b + cfg.kickThreshold <= s.now)
      && (seen.Some? && seen.value.RegisteredAt? ==> seen.value.block + 2 * cfg.kickThreshold <= s.now)
  {
    hide KickAll, Run, LastSeen, Blocks, IsCandidate, Quota, IdleCount;
    KickedIff(cfg, genesis, steps, i);
    BlocksBeforeNow(cfg, genesis, steps, Run(cfg, genesis, steps).candidates[i].who);
  }

  // ---------------------------------------------------------------- distinct collators

  /** The invulnerables are distinct and none is a candidate. */
  ghost predicate Apart(s: State) {
    Distinct(s.invulnerables) && forall a | a in s.invulnerables :: !IsCandidate(s.candidates, a)
  }

  /** Governance names no current candidate and nobody twice. */
  ghost predicate Careful(s: State, step: Step) {
    step.DoSetInvulnerables? ==>
      Distinct(step.accounts) && forall a | a in step.accounts :: !IsCandidate(s.candidates, a)
  }

  lemma StepKeepsApart(cfg: Config, s: State, step: Step)
    requires Inv(cfg, s) && Apart(s) && Careful(s, step)
    ensures Apart(Next(cfg, s, step))
  {
    hide Inv, KickAll;
    var s' := Next(cfg, s, step);
    SameInvulnerables(cfg, s, step);
    forall a | a in s'.invulnerables ensures !IsCandidate(s'.candidates, a) {
      if IsCandidate(s'.candidates, a) && !step.DoSetInvulnerables? {
        StepStaysOrJoins(cfg, s, step, a);
      }
    }
  }

  lemma SameInvulnerables(cfg: Config, s: State, step: Step)
    requires Inv(cfg, s)
    ensures !step.DoSetInvulnerables? ==> Next(cfg, s, step).invulnerables == s.invulnerables
  {
    if step.DoNewSession? {
      KickClosedForm(cfg, s);
    }
  }

  /** In a run where governance is careful, every session's collator list names nobody twice. */
  lemma {:induction false} SessionsDistinct(cfg: Config, genesis: State, steps: seq<Step>)
    requires genesis.candidates == [] && Distinct(genesis.invulnerables)
    requires forall i | 0 <= i < |steps| :: Careful(Run(cfg, genesis, steps[..i]), steps[i])
    ensures Apart(Run(cfg, genesis, steps))
    ensures Distinct(NewSession(cfg, Run(cfg, genesis, steps)).1)
  {
    hide Inv, KickAll;
    if steps != [] {
      var n := |steps| - 1;
      forall i | 0 <= i < n ensures Careful(Run(cfg, genesis, steps[..n][..i]), steps[..n][i]) {
        assert steps[..n][..i] == steps[..i];
      }
      SessionsDistinct(cfg, genesis, steps[..n]);
      RunInv(cfg, genesis, steps[..n]);
      StepKeepsApart(cfg, Run(cfg, genesis, steps[..n]), steps[n]);
    }
    RunInv(cfg, genesis, steps);
    ApartSession(cfg, Run(cfg, genesis, steps));
  }

  lemma ApartSession(cfg: Config, s: State)
    requires Inv(cfg, s) && Apart(s)
    ensures Distinct(NewSession(cfg, s).1)
  {
    hide Inv, KickAll, Goes, IsCandidate;
    CollatorsDistinctIff(cfg, s);
    CandidatesAre(cfg, s);
  }
}
