/** Closed form of refunds and conservation over the whole life of a trader. */
module TraderProofs {
  import opened Primitives
  import opened Trader

  // ---------------------------------------------------------------- invariant

  /** What a trader holds is fungible, known to the matcher, a `u128`, and at least the minimum. */
  ghost predicate Held(market: Market, held: Option<Refunder>) {
    held.Some? ==>
      && var asset := held.value.outstanding;
      && asset.Fungible?
      && market.localId(asset.id).Some?
      && Minimum(market, asset.id) <= asset.amount < U128_LIMIT
  }

  function Minimum(market: Market, id: AssetId): nat {
    match market.localId(id) case Some(local) => market.minimum(local) case None => 0
  }

  function AmountOf(entries: seq<(AssetId, nat)>, id: AssetId): nat {
    if entries == [] then 0
    else (if entries[0].0 == id then entries[0].1 else 0) + AmountOf(entries[1..], id)
  }

  lemma {:induction false} TakeOutIs(entries: seq<(AssetId, nat)>, id: AssetId, amount: nat, other: AssetId)
    requires TakeOut(entries, id, amount).Some?
    ensures AmountOf(entries, other)
         == AmountOf(TakeOut(entries, id, amount).value, other) + if other == id then amount else 0
  {
    if entries[0].0 != id {
      TakeOutIs(entries[1..], id, amount, other);
      assert TakeOut(entries, id, amount).value[1..] == TakeOut(entries[1..], id, amount).value;
    } else if entries[0].1 > amount {
      assert TakeOut(entries, id, amount).value[1..] == entries[1..];
    }
  }

  lemma BuyKeeps(market: Market, held: Option<Refunder>, weight: Weight, payment: Assets)
    requires Buy(market, held, weight, payment).Ok?
    ensures var (h, unused) := Buy(market, held, weight, payment).value;
      && held.None? && Held(market, Some(h)) && h.weight == weight
      && unused.instances == payment.instances
      && forall id ::
           AmountOf(payment.fungible, id)
             == AmountOf(unused.fungible, id) + if id == h.outstanding.id then h.outstanding.amount else 0
  {
    var (h, unused) := Buy(market, held, weight, payment).value;
    forall id
      ensures AmountOf(payment.fungible, id)
           == AmountOf(unused.fungible, id) + if id == h.outstanding.id then h.outstanding.amount else 0
    {
      TakeOutIs(payment.fungible, h.outstanding.id, h.outstanding.amount, id);
    }
  }

  /** The first asset is fungible and known to the matcher. */
  predicate Known(market: Market, payment: Assets) {
    payment.fungible != [] && market.localId(payment.fungible[0].0).Some?
  }

  predicate Priced(market: Market, weight: Weight, payment: Assets) {
    Known(market, payment) && market.charge(market.localId(payment.fungible[0].0).value, weight).Some?
  }

  /** The fee, but not less than the minimum balance. */
  function Price(market: Market, weight: Weight, payment: Assets): nat
    requires Priced(market, weight, payment)
  {
    var local := market.localId(payment.fungible[0].0).value;
    Max(market.charge(local, weight).value, market.minimum(local))
  }

  /** The first asset is fungible and known, the weight has a price, and the entry covers it. */
  predicate Affordable(market: Market, weight: Weight, payment: Assets) {
    && Priced(market, weight, payment)
    && Price(market, weight, payment) <= payment.fungible[0].1
    && Price(market, weight, payment) < U128_LIMIT
  }

  predicate BuyFault(market: Market, held: Option<Refunder>, weight: Weight, payment: Assets, e: Error) {
    match e
    case NotWithdrawable => held.Some?
    case AssetNotFound => held.None? && !Known(market, payment)
    case ChargeFailed => held.None? && Known(market, payment) && !Priced(market, weight, payment)
    case Overflow => held.None? && Priced(market, weight, payment) && Price(market, weight, payment) >= U128_LIMIT
    case TooExpensive =>
      && held.None? && Priced(market, weight, payment)
      && payment.fungible[0].1 < Price(market, weight, payment) < U128_LIMIT
  }

  /** The payment without the price: an entry that is used up disappears, the rest stays in place. */
  function Unused(payment: Assets, price: nat): Assets
    requires payment.fungible != [] && price <= payment.fungible[0].1
  {
    var (id, available) := payment.fungible[0];
    payment.(fungible := (if price == available then [] else [(id, available - price)]) + payment.fungible[1..])
  }

  /** A purchase goes through exactly when nothing was bought before and the first asset covers the
      price, which is what is then held, and what is not needed comes back; otherwise each error has
      its own condition. */
  lemma BuyIff(market: Market, held: Option<Refunder>, weight: Weight, payment: Assets)
    ensures var r := Buy(market, held, weight, payment);
      && (r.Ok? <==> held.None? && Affordable(market, weight, payment))
      && (r.Ok? ==>
            && r.value.0 == Refunder(weight, Fungible(payment.fungible[0].0, Price(market, weight, payment)))
            && r.value.1 == Unused(payment, Price(market, weight, payment)))
      && forall e :: r == Err(e) <==> BuyFault(market, held, weight, payment, e)
  {
  }

  function Paid(r: Option<Asset>): nat {
    match r case Some(a) => (if a.Fungible? then a.amount else 0) case None => 0
  }

  /** What a refund of a weight counts for: the fee, and the weight taken off. All three are
      nothing when the charger fails. */
  datatype Measure = Fee | RefTime | ProofSize

  function Measured(market: Market, id: AssetId, what: Measure, w: Weight): nat {
    match market.localId(id)
    case None => 0
    case Some(local) =>
      match market.charge(local, w)
      case None => 0
      case Some(fee) =>
        match what
        case Fee => fee
        case RefTime => w.refTime
        case ProofSize => w.proofSize
  }

  /** One refund moves the outstanding amount down by the fee but not below the minimum, and pays
      out exactly the difference: no saturation takes effect on the way. */
  lemma RefundIs(market: Market, r: Refunder, weight: Weight)
    requires Held(market, Some(r))
    ensures var (h, back) := Refund(market, Some(r), weight);
      && h.Some? && Held(market, h)
      && h.value.outstanding
           == Fungible(r.outstanding.id,
                       Max(r.outstanding.amount - Measured(market, r.outstanding.id, Fee, weight),
                           Minimum(market, r.outstanding.id)))
      && h.value.weight.refTime == Max(0, r.weight.refTime - Measured(market, r.outstanding.id, RefTime, weight))
      && h.value.weight.proofSize == Max(0, r.weight.proofSize - Measured(market, r.outstanding.id, ProofSize, weight))
      && Paid(back) == r.outstanding.amount - h.value.outstanding.amount
      && (back.Some? ==> back.value == Fungible(r.outstanding.id, Paid(back)) && Paid(back) > 0)
  {
  }

  // ---------------------------------------------------------------- many refunds

  function RefundAll(market: Market, held: Option<Refunder>, weights: seq<Weight>): (Option<Refunder>, nat) {
    if weights == [] then (held, 0)
    else
      var n := |weights| - 1;
      var (h, paid) := RefundAll(market, held, weights[..n]);
      var (h', back) := Refund(market, h, weights[n]);
      (h', paid + Paid(back))
  }

  function Sum(market: Market, id: AssetId, what: Measure, weights: seq<Weight>): nat {
    if weights == [] then 0
    else
      var n := |weights| - 1;
      Sum(market, id, what, weights[..n]) + Measured(market, id, what, weights[n])
  }

  /** However the refunds are cut up, together they pay min(sum of fees, C - m) out of the C that
      was charged, and the outstanding weight falls by what was refunded, down to 0. */
  lemma {:induction false} RefundsClosedForm(market: Market, r: Refunder, weights: seq<Weight>)
    requires Held(market, Some(r))
    ensures var (h, paid) := RefundAll(market, Some(r), weights);
      var id := r.outstanding.id;
      && h.Some? && Held(market, h)
      && paid == Min(Sum(market, id, Fee, weights), r.outstanding.amount - Minimum(market, r.outstanding.id))
      && h.value.outstanding == Fungible(id, r.outstanding.amount - paid)
      && h.value.weight.refTime == Max(0, r.weight.refTime - Sum(market, id, RefTime, weights))
      && h.value.weight.proofSize == Max(0, r.weight.proofSize - Sum(market, id, ProofSize, weights))
  {
    hide Refund, Measured, Minimum;
    if weights != [] {
      var n := |weights| - 1;
      RefundsClosedForm(market, r, weights[..n]);
      RefundIs(market, RefundAll(market, Some(r), weights[..n]).0.value, weights[n]);
    }
  }

  lemma {:induction false} SumWithout(market: Market, id: AssetId, what: Measure, weights: seq<Weight>, i: nat)
    requires i < |weights|
    ensures Sum(market, id, what, weights)
         == Sum(market, id, what, weights[..i] + weights[i + 1..]) + Measured(market, id, what, weights[i])
  {
    var n := |weights| - 1;
    if i < n {
      SumWithout(market, id, what, weights[..n], i);
      var rest := weights[..i] + weights[i + 1..];
      assert rest[..n - 1] == weights[..n][..i] + weights[..n][i + 1..];
      assert rest[n - 1] == weights[n];
    } else {
      assert weights[..i] + weights[i + 1..] == weights[..n];
    }
  }

  lemma {:induction false} SumPermuted(
    market: Market, id: AssetId, what: Measure, weights: seq<Weight>, weights': seq<Weight>)
    requires multiset(weights) == multiset(weights')
    ensures Sum(market, id, what, weights) == Sum(market, id, what, weights')
    decreases |weights|
  {
    hide Measured, Sum;
    if weights == [] {
      assert |multiset(weights')| == 0;
    } else {
      var n := |weights| - 1;
      var w := weights[n];
      assert w in multiset(weights');
      var i :| 0 <= i < |weights'| && weights'[i] == w;
      var rest := weights'[..i] + weights'[i + 1..];
      MultisetWithout(weights, n);
      MultisetWithout(weights', i);
      assert weights[..n] + weights[n + 1..] == weights[..n];
      SumPermuted(market, id, what, weights[..n], rest);
      SumWithout(market, id, what, weights, n);
      SumWithout(market, id, what, weights', i);
    }
  }

  /** The order of refunds does not matter, neither for the total nor for what is left. */
  lemma RefundOrderIrrelevant(market: Market, r: Refunder, weights: seq<Weight>, weights': seq<Weight>)
    requires Held(market, Some(r)) && multiset(weights) == multiset(weights')
    ensures RefundAll(market, Some(r), weights) == RefundAll(market, Some(r), weights')
  {
    hide RefundAll, Sum;
    var id := r.outstanding.id;
    RefundsClosedForm(market, r, weights);
    RefundsClosedForm(market, r, weights');
    SumPermuted(market, id, Fee, weights, weights');
    SumPermuted(market, id, RefTime, weights, weights');
    SumPermuted(market, id, ProofSize, weights, weights');
  }

  // ---------------------------------------------------------------- the whole life

  datatype Call = BuyWeight(weight: Weight, payment: Assets) | RefundWeight(weight: Weight)

  function HeldAfter(market: Market, calls: seq<Call>): Option<Refunder> {
    if calls == [] then None
    else
      var n := |calls| - 1;
      var held := HeldAfter(market, calls[..n]);
      match calls[n]
      case BuyWeight(w, p) => (match Buy(market, held, w, p) case Ok((h, _)) => Some(h) case Err(_) => held)
      case RefundWeight(w) => Refund(market, held, w).0
  }

  /** Everything of asset `id` that callers handed over. */
  function Payments(calls: seq<Call>, id: AssetId): nat {
    if calls == [] then 0
    else
      var n := |calls| - 1;
      Payments(calls[..n], id) + match calls[n]
        case BuyWeight(_, p) => AmountOf(p.fungible, id)
        case RefundWeight(_) => 0
  }

  /** Everything of asset `id` that came back: the unused part of a payment, the whole payment of
      a failed purchase, and refunds. */
  function Returned(market: Market, calls: seq<Call>, id: AssetId): nat {
    if calls == [] then 0
    else
      var n := |calls| - 1;
      var held := HeldAfter(market, calls[..n]);
      Returned(market, calls[..n], id) + match calls[n]
        case BuyWeight(w, p) =>
          (match Buy(market, held, w, p)
           case Ok((_, unused)) => AmountOf(unused.fungible, id)
           case Err(_) => AmountOf(p.fungible, id))
        case RefundWeight(w) =>
          (match Refund(market, held, w).1
           case Some(Fungible(i, amount)) => if i == id then amount else 0
           case _ => 0)
  }

  /** What dropping the trader now would pass on as revenue in asset `id`. */
  function Revenue(held: Option<Refunder>, id: AssetId): nat {
    if held.Some? && held.value.outstanding.Fungible? && held.value.outstanding.id == id
    then held.value.outstanding.amount else 0
  }

  /** Over every sequence of purchases, failed or repeated ones included, and refunds: what was
      paid is what came back plus the revenue at drop, asset by asset; and the revenue is at least
      the minimum balance once anything was bought. */
  lemma {:induction false} LifeConserves(market: Market, calls: seq<Call>, id: AssetId)
    ensures var held := HeldAfter(market, calls);
      && Held(market, held)
      && Payments(calls, id) == Returned(market, calls, id) + Revenue(held, id)
      && (held.Some? ==> Revenue(held, held.value.outstanding.id) >= Minimum(market, held.value.outstanding.id))
  {
    if calls != [] {
      var n := |calls| - 1;
      LifeConserves(market, calls[..n], id);
      var held := HeldAfter(market, calls[..n]);
      match calls[n] {
        case BuyWeight(w, p) =>
          if Buy(market, held, w, p).Ok? {
            BuyKeeps(market, held, w, p);
          }
        case RefundWeight(w) =>
          if held.Some? {
            RefundIs(market, held.value, w);
          }
      }
    }
  }

  /** A trader sells once: after a successful purchase every further one fails and changes nothing. */
  lemma {:induction false} SellsOnce(market: Market, calls: seq<Call>, n: nat, weight: Weight, payment: Assets)
    requires n <= |calls| && HeldAfter(market, calls[..n]).Some?
    ensures HeldAfter(market, calls).Some?
    ensures Buy(market, HeldAfter(market, calls), weight, payment) == Err(NotWithdrawable)
    decreases |calls|
  {
    if n == |calls| {
      assert calls[..n] == calls;
    } else {
      var m := |calls| - 1;
      assert calls[..m][..n] == calls[..n];
      SellsOnce(market, calls[..m], n, weight, payment);
    }
  }

  predicate BuysAffordably(market: Market, call: Call) {
    call.BuyWeight? && Affordable(market, call.weight, call.payment)
  }

  /** A trader has something to hand over exactly when one of the purchases was affordable. */
  lemma {:induction false} SoldIff(market: Market, calls: seq<Call>)
    ensures HeldAfter(market, calls).Some? <==> exists call | call in calls :: BuysAffordably(market, call)
  {
    hide Affordable, Buy;
    if calls != [] {
      var n := |calls| - 1;
      var held := HeldAfter(market, calls[..n]);
      SoldIff(market, calls[..n]);
      assert calls == calls[..n] + [calls[n]];
      assert forall call :: call in calls <==> call in calls[..n] || call == calls[n];
      LifeConserves(market, calls[..n], 0);
      match calls[n] {
        case BuyWeight(w, p) =>
          BuyIff(market, held, w, p);
          assert HeldAfter(market, calls).Some? <==> held.Some? || BuysAffordably(market, calls[n]);
          assert BuysAffordably(market, calls[n]) ==> calls[n] in calls;
        case RefundWeight(w) =>
          if held.Some? {
            RefundIs(market, held.value, w);
          }
      }
    }
  }

  // ---------------------------------------------------------------- the trader object

  lemma {:induction false} AmountOfAppend(a: seq<(AssetId, nat)>, b: seq<(AssetId, nat)>, id: AssetId)
    ensures AmountOf(a + b, id) == AmountOf(a, id) + AmountOf(b, id)
  {
    if a == [] {
      assert a + b == b;
    } else {
      assert (a + b)[1..] == a[1..] + b;
      AmountOfAppend(a[1..], b, id);
    }
  }

  /** One call on a trader object, and the fungible assets the caller has back after it. */
  method Perform(trader: TakeFirstAssetTrader, ghost calls: seq<Call>, call: Call) returns (back: seq<(AssetId, nat)>)
    requires trader.held == HeldAfter(trader.market, calls)
    modifies trader
    ensures trader.held == HeldAfter(trader.market, calls + [call])
    ensures forall id ::
      Returned(trader.market, calls + [call], id) == Returned(trader.market, calls, id) + AmountOf(back, id)
  {
    assert (calls + [call])[..|calls|] == calls;
    match call {
      case BuyWeight(w, p) =>
        var r := trader.BuyWeight(w, p);
        back := if r.Ok? then r.value.fungible else p.fungible;
      case RefundWeight(w) =>
        var r := trader.RefundWeight(w);
        back := match r case Some(Fungible(id, amount)) => [(id, amount)] case _ => [];
    }
  }

  function AmountIn(asset: Option<Asset>, id: AssetId): nat {
    if asset.Some? && asset.value.id == id then Paid(asset) else 0
  }

  /** The life of a trader object, from creation to drop: whatever the calls, what callers paid is
      what they have back plus what the drop hands to the revenue handler, asset by asset. */
  method Live(market: Market, calls: seq<Call>) returns (returned: seq<(AssetId, nat)>, revenue: Option<Asset>)
    ensures forall id :: Payments(calls, id) == AmountOf(returned, id) + AmountIn(revenue, id)
    ensures revenue.Some? ==>
      revenue.value.Fungible? && revenue.value.amount >= Minimum(market, revenue.value.id)
    ensures revenue.Some? <==> exists call | call in calls :: BuysAffordably(market, call)
  {
    var trader := new TakeFirstAssetTrader(market);
    returned := [];
    for i := 0 to |calls|
      invariant fresh(trader) && trader.market == market
      invariant trader.held == HeldAfter(market, calls[..i])
      invariant forall id :: AmountOf(returned, id) == Returned(market, calls[..i], id)
    {
      assert calls[..i] + [calls[i]] == calls[..i + 1];
      var back := Perform(trader, calls[..i], calls[i]);
      forall id ensures AmountOf(returned + back, id) == AmountOf(returned, id) + AmountOf(back, id) {
        AmountOfAppend(returned, back, id);
      }
      returned := returned + back;
    }
    assert calls[..|calls|] == calls;
    LifeConserves(market, calls, 0);
    forall id
      ensures Payments(calls, id) == Returned(market, calls, id) + Revenue(trader.held, id)
    {
      LifeConserves(market, calls, id);
    }
    SoldIff(market, calls);
    revenue := trader.Drop();
  }
}
