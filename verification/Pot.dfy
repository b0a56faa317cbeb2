/** The reward pot: each authored block pays out half of what lies above the existential deposit. */
module Pot {
  import opened Primitives
  import opened Collators
  import opened CollatorProofs
  import opened CollatorRuns

  function Pow2(n: nat): (p: nat)
    ensures p >= 1
  {
    if n == 0 then 1 else 2 * Pow2(n - 1)
  }

  function CeilDiv(p: nat, d: nat): nat
    requires d >= 1
  {
    (p + d - 1) / d
  }

  lemma MulLe(a: int, b: int, d: nat)
    requires a <= b
    ensures a * d <= b * d
  {
  }

  lemma CeilDivBounds(p: nat, d: nat)
    requires d >= 1
    ensures CeilDiv(p, d) * d - d < p <= CeilDiv(p, d) * d
  {
    var n := p + d - 1;
    assert n == n / d * d + n % d;
  }

  lemma CeilDivIs(p: nat, d: nat, q: nat)
    requires d >= 1 && q * d - d < p <= q * d
    ensures q == CeilDiv(p, d)
  {
    var c := CeilDiv(p, d);
    CeilDivBounds(p, d);
    if q < c {
      MulLe(q, c - 1, d);
    } else if c < q {
      MulLe(c, q - 1, d);
    }
  }

  /** Halving and rounding up once more is dividing by twice as much and rounding up. */
  lemma CeilHalf(p: nat, d: nat)
    requires d >= 1
    ensures CeilDiv(p, d) - CeilDiv(p, d) / 2 == CeilDiv(p, 2 * d)
  {
    hide CeilDiv;
    var q := CeilDiv(p, d);
    var r: int := q - q / 2;
    CeilDivBounds(p, d);
    MulLe(q, 2 * r, d);
    MulLe(2 * r - 1, q, d);
    TwiceBoth(r, d);
    CeilDivIs(p, 2 * d, r);
  }

  lemma TwiceBoth(r: int, d: int)
    ensures (2 * r) * d == r * (2 * d) && (2 * r - 1) * d == r * (2 * d) - d
  {
  }

  // ---------------------------------------------------------------- money

  function Total(s: State, a: Account): nat {
    Of(s.free, a) + Of(s.reserved, a)
  }

  function Sum(s: State, accounts: seq<Account>): nat {
    if accounts == [] then 0
    else Sum(s, accounts[..|accounts| - 1]) + Total(s, accounts[|accounts| - 1])
  }

  /** The transfer to `author` goes through: with the reward it reaches the existential deposit. */
  ghost predicate Payable(cfg: Config, s: State, author: Account) {
    author != cfg.pot && Total(s, author) + Reward(cfg, s) >= cfg.existentialDeposit
  }

  lemma {:induction false} SumSame(s: State, s': State, accounts: seq<Account>)
    requires forall a | a in accounts :: Total(s, a) == Total(s', a)
    ensures Sum(s, accounts) == Sum(s', accounts)
  {
    if accounts != [] {
      SumSame(s, s', accounts[..|accounts| - 1]);
    }
  }

  lemma {:induction false} SumPaid(s: State, s': State, accounts: seq<Account>, author: Account, amount: nat)
    requires Distinct(accounts) && author in accounts
    requires Total(s', author) == Total(s, author) + amount
    requires forall a | a in accounts && a != author :: Total(s', a) == Total(s, a)
    ensures Sum(s', accounts) == Sum(s, accounts) + amount
  {
    var n := |accounts| - 1;
    assert forall i, j | 0 <= i < j < n :: accounts[..n][i] != accounts[..n][j];
    if accounts[n] == author {
      assert forall i | 0 <= i < n :: accounts[..n][i] == accounts[i] != accounts[n];
      SumSame(s, s', accounts[..n]);
    } else {
      SumPaid(s, s', accounts[..n], author, amount);
    }
  }

  // ---------------------------------------------------------------- one step

  /** A block pays half of the excess, rounded down, to its author and to nobody else. */
  lemma OneBlock(cfg: Config, s: State, author: Account, p: nat, accounts: seq<Account>)
    requires Of(s.free, cfg.pot) == cfg.existentialDeposit + p && Payable(cfg, s, author)
    requires Distinct(accounts) && cfg.pot !in accounts && author in accounts
    ensures var s' := NoteAuthor(cfg, s, author);
      && Of(s'.free, cfg.pot) == cfg.existentialDeposit + (p - p / 2)
      && Sum(s', accounts) == Sum(s, accounts) + p / 2
      && (forall a | a != cfg.pot :: Total(s', a) == Total(s, a) + if a == author then p / 2 else 0)
      && s'.candidates == s.candidates
  {
    assert Reward(cfg, s) == p / 2;
    SumPaid(s, NoteAuthor(cfg, s, author), accounts, author, p / 2);
  }

  /** A block whose author is the pot itself, or does not reach the existential deposit, pays nobody. */
  lemma UnpaidBlock(cfg: Config, s: State, author: Account)
    requires !Payable(cfg, s, author)
    ensures forall a :: Of(NoteAuthor(cfg, s, author).free, a) == Of(s.free, a)
  {
  }

  /** The pallet's own calls leave the pot alone as long as the pot is no candidate. */
  lemma OtherStep(cfg: Config, s: State, step: Step, accounts: seq<Account>)
    requires Inv(cfg, s) && Internal(step) && !IsCandidate(s.candidates, cfg.pot)
    requires step.DoRegister? ==> step.who != cfg.pot
    ensures var s' := Next(cfg, s, step);
      && Of(s'.free, cfg.pot) == Of(s.free, cfg.pot)
      && Sum(s', accounts) == Sum(s, accounts)
      && (forall a :: Total(s', a) == Total(s, a))
      && !IsCandidate(s'.candidates, cfg.pot)
  {
    hide Inv, KickAll;
    var s' := Next(cfg, s, step);
    StepKeepsInv(cfg, s, step);
    if IsCandidate(s'.candidates, cfg.pot) {
      StepStaysOrJoins(cfg, s, step, cfg.pot);
    }
    assert Foreign(s', cfg.pot) == Foreign(s, cfg.pot);
    SumSame(s, s', accounts);
  }

  // ---------------------------------------------------------------- every run

  /** How many of the run's blocks have an author that can be paid when the block is noted. */
  ghost function PaidBlocks(cfg: Config, s: State, steps: seq<Step>): nat {
    if steps == [] then 0
    else
      var n := |steps| - 1;
      PaidBlocks(cfg, s, steps[..n])
        + if steps[n].DoNoteAuthor? && Payable(cfg, Run(cfg, s, steps[..n]), steps[n].author) then 1 else 0
  }

  /** Nothing but the pallet happens, and the pot does not register. */
  predicate Undisturbed(cfg: Config, step: Step) {
    !step.External? && (step.DoRegister? ==> step.who != cfg.pot)
  }

  /** A further block, paid or not, keeps the closed form. */
  lemma BlockStep(cfg: Config, s: State, author: Account, p: nat, n: nat, accounts: seq<Account>)
    requires Of(s.free, cfg.pot) == cfg.existentialDeposit + CeilDiv(p, Pow2(n)) && CeilDiv(p, Pow2(n)) <= p
    requires Distinct(accounts) && cfg.pot !in accounts && (author == cfg.pot || author in accounts)
    ensures var s', left := NoteAuthor(cfg, s, author), CeilDiv(p, Pow2(n));
      var left' := CeilDiv(p, Pow2(if Payable(cfg, s, author) then n + 1 else n));
      && Of(s'.free, cfg.pot) == cfg.existentialDeposit + left'
      && left' <= left
      && Sum(s', accounts) == Sum(s, accounts) + (left - left')
      && s'.candidates == s.candidates
  {
    hide CeilDiv;
    if Payable(cfg, s, author) {
      hide NoteAuthor;
      OneBlock(cfg, s, author, CeilDiv(p, Pow2(n)), accounts);
      CeilHalf(p, Pow2(n));
    } else {
      UnpaidBlock(cfg, s, author);
      SumSame(s, NoteAuthor(cfg, s, author), accounts);
    }
  }

  /** From `s`, with `p` above the existential deposit, to `s'`: the pot's excess is p / 2^n rounded
      up, and `accounts` have together gained the rest. */
  ghost predicate Halved(cfg: Config, s: State, s': State, p: nat, n: nat, accounts: seq<Account>) {
    var left := CeilDiv(p, Pow2(n));
    && Of(s'.free, cfg.pot) == cfg.existentialDeposit + left
    && left <= p
    && Sum(s', accounts) == Sum(s, accounts) + (p - left)
  }

  lemma HalvedStep(cfg: Config, s: State, s1: State, step: Step, p: nat, n: nat, accounts: seq<Account>)
    requires Inv(cfg, s1) && !IsCandidate(s1.candidates, cfg.pot) && Undisturbed(cfg, step)
    requires Distinct(accounts) && cfg.pot !in accounts
    requires step.DoNoteAuthor? ==> step.author == cfg.pot || step.author in accounts
    requires Halved(cfg, s, s1, p, n, accounts)
    ensures var paid := step.DoNoteAuthor? && Payable(cfg, s1, step.author);
      && Halved(cfg, s, Next(cfg, s1, step), p, if paid then n + 1 else n, accounts)
      && !IsCandidate(Next(cfg, s1, step).candidates, cfg.pot)
  {
    hide Inv, KickAll, CeilDiv, Pow2, Payable, NoteAuthor, Register, Leave, Sum, IsCandidate;
    if step.DoNoteAuthor? {
      BlockStep(cfg, s1, step.author, p, n, accounts);
    } else {
      OtherStep(cfg, s1, step, accounts);
    }
  }

  /** After n blocks with payable authors, and with unpaid blocks, registrations, departures and
      session changes anywhere between them, the pot's excess is p / 2^n rounded up and the authors
      together have the rest. `accounts` is any list without repeats that contains the authors. */
  lemma {:induction false} PotHalves(cfg: Config, s: State, steps: seq<Step>, p: nat, accounts: seq<Account>)
    requires Inv(cfg, s) && !IsCandidate(s.candidates, cfg.pot)
    requires Of(s.free, cfg.pot) == cfg.existentialDeposit + p
    requires Distinct(accounts) && cfg.pot !in accounts
    requires forall i | 0 <= i < |steps| :: Undisturbed(cfg, steps[i])
    requires forall i | 0 <= i < |steps| && steps[i].DoNoteAuthor? ::
      steps[i].author == cfg.pot || steps[i].author in accounts
    ensures Halved(cfg, s, Run(cfg, s, steps), p, PaidBlocks(cfg, s, steps), accounts)
    ensures Inv(cfg, Run(cfg, s, steps)) && !IsCandidate(Run(cfg, s, steps).candidates, cfg.pot)
  {
    hide Inv, Next, Payable, IsCandidate, CeilDiv, Sum;
    if steps == [] {
      CeilDivBounds(p, 1);
      CeilDivIs(p, 1, p);
    } else {
      hide Halved;
      var n := |steps| - 1;
      assert forall i | 0 <= i < n :: steps[..n][i] == steps[i];
      PotHalves(cfg, s, steps[..n], p, accounts);
      var s1 := Run(cfg, s, steps[..n]);
      StepKeepsInv(cfg, s1, steps[n]);
      HalvedStep(cfg, s, s1, steps[n], p, PaidBlocks(cfg, s, steps[..n]), accounts);
    }
  }
}
