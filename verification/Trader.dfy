/** The trader that charges for execution weight in the first asset of a payment, refunds unused
    weight, and hands what is left to the revenue handler when it is dropped. */
module Trader {
  import opened Primitives

  datatype Weight = Weight(refTime: nat, proofSize: nat)

  type AssetId = nat

  datatype Asset = Fungible(id: AssetId, amount: nat) | NonFungible(id: AssetId, instance: nat)

  /** The executor's holding, in its storage order: fungible entries come first. */
  datatype Assets = Assets(fungible: seq<(AssetId, nat)>, instances: seq<(AssetId, nat)>)

  datatype Error = NotWithdrawable | AssetNotFound | Overflow | TooExpensive | ChargeFailed

  /** What lies outside this repository: the matcher's local id for an asset, minimum balances, and
      the fee for a weight, `None` when the charger fails. */
  datatype Market = Market(
    localId: AssetId -> Option<nat>,
    minimum: nat -> nat,
    charge: (nat, Weight) -> Option<nat>)

  datatype Refunder = Refunder(weight: Weight, outstanding: Asset)

  function SubWeight(a: Weight, b: Weight): Weight {
    Weight(SaturatingSub(a.refTime, b.refTime), SaturatingSub(a.proofSize, b.proofSize))
  }

  /** `saturated_into::<u128>`. */
  function Saturate(n: nat): nat {
    if n < U128_LIMIT then n else U128_LIMIT - 1
  }

  function First(assets: Assets): Option<Asset> {
    if assets.fungible != [] then Some(Fungible(assets.fungible[0].0, assets.fungible[0].1))
    else if assets.instances != [] then Some(NonFungible(assets.instances[0].0, assets.instances[0].1))
    else None
  }

  /** The local id and amount of a fungible asset that the matcher knows. */
  function Match(market: Market, asset: Asset): Option<(nat, nat)> {
    match asset
    case Fungible(id, amount) =>
      (match market.localId(id) case Some(local) => Some((local, amount)) case None => None)
    case NonFungible(_, _) => None
  }

  /** Takes `amount` of `id` out; an entry that becomes empty disappears. */
  function TakeOut(entries: seq<(AssetId, nat)>, id: AssetId, amount: nat): Option<seq<(AssetId, nat)>> {
    if entries == [] then None
    else if entries[0].0 != id then
      match TakeOut(entries[1..], id, amount) case Some(rest) => Some([entries[0]] + rest) case None => None
    else if entries[0].1 < amount then None
    else if entries[0].1 == amount then Some(entries[1..])
    else Some([(id, entries[0].1 - amount)] + entries[1..])
  }

  function Buy(market: Market, held: Option<Refunder>, weight: Weight, payment: Assets)
    : Result<(Refunder, Assets), Error>
  {
    if held.Some? then Err(NotWithdrawable)
    else if First(payment).None? then Err(AssetNotFound)
    else
      var first := First(payment).value;
      match Match(market, first)
      case None => Err(AssetNotFound)
      case Some((local, _)) =>
        match market.charge(local, weight)
        case None => Err(ChargeFailed)
        case Some(fee) =>
          var amount := if fee < market.minimum(local) then market.minimum(local) else fee;
          if amount >= U128_LIMIT then Err(Overflow)
          else
            match TakeOut(payment.fungible, first.id, amount)
            case None => Err(TooExpensive)
            case Some(rest) =>
              Ok((Refunder(weight, Fungible(first.id, amount)), payment.(fungible := rest)))
  }

  function Refund(market: Market, held: Option<Refunder>, weight: Weight): (Option<Refunder>, Option<Asset>) {
    match held
    case None => (None, None)
    case Some(r) =>
      match Match(market, r.outstanding)
      case None => (held, None)
      case Some((local, outstanding)) =>
        match market.charge(local, weight)
        case None => (held, None)
        case Some(fee) =>
          var minimum := market.minimum(local);
          var (back, left) :=
            if SaturatingSub(outstanding, fee) > minimum then (fee, SaturatingSub(outstanding, fee))
            else (SaturatingSub(outstanding, minimum), minimum);
          var id := r.outstanding.id;
          (Some(Refunder(SubWeight(r.weight, weight), Fungible(id, Saturate(left)))),
           if Saturate(back) > 0 then Some(Fungible(id, Saturate(back))) else None)
  }

  /** The trader object: `held` is its only field. */
  class TakeFirstAssetTrader {
    const market: Market
    var held: Option<Refunder>

    constructor (market: Market)
      ensures this.market == market && held == None
    {
      this.market := market;
      held := None;
    }

    method BuyWeight(weight: Weight, payment: Assets) returns (r: Result<Assets, Error>)
      modifies this
      ensures match Buy(market, old(held), weight, payment)
        case Ok((h, unused)) => r == Ok(unused) && held == Some(h)
        case Err(e) => r == Err(e) && held == old(held)
    {
      if held.Some? {
        return Err(NotWithdrawable);
      }
      var first := First(payment);
      if first.None? {
        return Err(AssetNotFound);
      }
      var matched := Match(market, first.value);
      if matched.None? {
        return Err(AssetNotFound);
      }
      var local := matched.value.0;
      var fee := market.charge(local, weight);
      if fee.None? {
        return Err(ChargeFailed);
      }
      var amount := fee.value;
      if amount < market.minimum(local) {
        amount := market.minimum(local);
      }
      if amount >= U128_LIMIT {
        return Err(Overflow);
      }
      var rest := TakeOut(payment.fungible, first.value.id, amount);
      if rest.None? {
        return Err(TooExpensive);
      }
      held := Some(Refunder(weight, Fungible(first.value.id, amount)));
      r := Ok(payment.(fungible := rest.value));
    }

    method RefundWeight(weight: Weight) returns (r: Option<Asset>)
      modifies this
      ensures (held, r) == Refund(market, old(held), weight)
    {
      if held.None? {
        return None;
      }
      var refunder := held.value;
      var matched := Match(market, refunder.outstanding);
      if matched.None? {
        return None;
      }
      var (local, outstanding) := matched.value;
      var minimum := market.minimum(local);
      var fee := market.charge(local, weight);
      if fee.None? {
        return None;
      }
      var back, left := fee.value, SaturatingSub(outstanding, fee.value);
      if !(left > minimum) {
        back, left := SaturatingSub(outstanding, minimum), minimum;
      }
      left, back := Saturate(left), Saturate(back);
      var id := refunder.outstanding.id;
      held := Some(Refunder(SubWeight(refunder.weight, weight), Fungible(id, left)));
      r := if back > 0 then Some(Fungible(id, back)) else None;
    }

    /** What dropping the trader passes to the revenue handler. */
    method Drop() returns (revenue: Option<Asset>)
      ensures revenue == match held case Some(h) => Some(h.outstanding) case None => None
    {
      revenue := if held.Some? then Some(held.value.outstanding) else None;
    }
  }
}
