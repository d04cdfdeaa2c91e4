/** Redeeming a globally settled asset against its settlement fund. */
module Redemption {
  import opened Common
  import opened Arithmetic
  import opened MapSums
  import opened Market
  import opened Matching

  predicate HasFund(m: State, mia: AssetId) {
    mia in m.assets && m.assets[mia].bit.Some? && m.assets[mia].bit.value.settlement.Some?
  }

  /** Pay `amount` of the settled asset back: it is burnt, and its share of the fund is paid out, rounded down. */
  function Redeem(m: State, who: AccountId, mia: AssetId, amount: nat): Option<State>
    requires HasFund(m, mia)
  {
    var a, b := m.assets[mia], m.assets[mia].bit.value;
    var price := b.settlement.value;
    if Holding(m, who, mia) < amount || price.baseAmount == 0 then None
    else
      var share := FromBase(amount, price);
      if share > b.fund then None
      else
        var spent :=
          if amount == 0 then m else m.(balances := m.balances[(who, mia) := m.balances[(who, mia)] - amount]);
        var a' := a.(supply := a.supply - amount, bit := Some(b.(fund := b.fund - share)));
        var paid := spent.(assets := spent.assets[mia := a']);
        Some(Credit(paid, who, b.backing, share))
  }

  /** The fund covers the supply that is left, at the settlement price. */
  ghost predicate Solvent(m: State, mia: AssetId) {
    HasFund(m, mia) &&
    var a, b := m.assets[mia], m.assets[mia].bit.value; var p := b.settlement.value;
    0 <= a.supply <= p.baseAmount && b.fund * p.baseAmount >= a.supply * p.quoteAmount
  }

  /** Nobody holds more than what is issued, as long as holdings add up to no more than the supply. */
  lemma HoldingBound(m: State, x: AssetId, who: AccountId, settle: OrderId)
    requires x in m.assets && Net(m, x) <= 0
    ensures (who, x) in m.balances ==> m.balances[(who, x)] <= m.assets[x].supply
    ensures settle in m.settles && m.settles[settle].asset == x ==> m.settles[settle].balance <= m.assets[x].supply
  {
    SumAtLeast<(AccountId, AssetId), nat>(m.balances, (who, x), BalanceIn(x));
    SumAtLeast(m.limits, 0, ForSaleIn(x));
    SumAtLeast(m.limits, 0, DeferredIn(x));
    SumAtLeast(m.calls, 0, CollateralIn(x));
    SumAtLeast(m.settles, settle, SettlingIn(x));
    SumAtLeast<AccountId, nat>(m.pendingFees, 0, PendingIn(x));
    SumAtLeast(m.assets, 0, FundIn(x));
    SumOnly(m.assets, x, IssuedIn(x));
  }

  lemma ShareIsCovered(amount: nat, supply: nat, fund: nat, p: Price)
    requires p.baseAmount > 0 && amount <= supply && fund * p.baseAmount >= supply * p.quoteAmount
    ensures FromBase(amount, p) <= fund
    ensures (fund - FromBase(amount, p)) * p.baseAmount >= (supply - amount) * p.quoteAmount
  {
    var (s, g, share) := (p.baseAmount, p.quoteAmount, FromBase(amount, p));
    DivBounds(amount * g, s);
    assert amount * g <= supply * g by { MulMono(amount, supply, g); }
    assert share * s <= fund * s;
    Cancel(share, fund, s);
    assert (fund - share) * s == fund * s - share * s;
    assert (supply - amount) * g == supply * g - amount * g;
  }

  /** A redemption is refused only for lack of balance: the fund is never short, whatever was redeemed before. Redeeming
      nothing is refused only by an asset that was settled without any supply. */
  lemma FundNeverShort(m: State, who: AccountId, mia: AssetId, amount: nat)
    requires Solvent(m, mia) && Net(m, mia) <= 0
    ensures Redeem(m, who, mia, amount).Some? <==>
      Holding(m, who, mia) >= amount && (amount == 0 ==> m.assets[mia].bit.value.settlement.value.baseAmount > 0)
    ensures Redeem(m, who, mia, amount).Some? ==> var r := Redeem(m, who, mia, amount).value;
      Solvent(r, mia) && r.assets[mia].supply == m.assets[mia].supply - amount
  {
    HoldingBound(m, mia, who, 0);
    hide Net;
    var price := m.assets[mia].bit.value.settlement.value;
    if Holding(m, who, mia) >= amount && price.baseAmount > 0 {
      ShareIsCovered(amount, m.assets[mia].supply, m.assets[mia].bit.value.fund, price);
    }
  }

  lemma DebitNet(m: State, who: AccountId, x: AssetId, amount: nat, y: AssetId)
    requires (who, x) in m.balances && amount <= m.balances[(who, x)]
    ensures Net(m.(balances := m.balances[(who, x) := m.balances[(who, x)] - amount]), y) ==
      Net(m, y) - if y == x then amount else 0
  {
    SumUpdate<(AccountId, AssetId), nat>(m.balances, (who, x), m.balances[(who, x)] - amount, BalanceIn(y));
  }

  lemma FundNet(m: State, mia: AssetId, a: AssetInfo, y: AssetId)
    requires HasFund(m, mia) && a == m.assets[mia].(supply := a.supply, bit := a.bit)
    requires a.bit.Some? && a.bit.value == m.assets[mia].bit.value.(fund := a.bit.value.fund)
    ensures Net(m.(assets := m.assets[mia := a]), y) == Net(m, y)
      + (if y == a.bit.value.backing then a.bit.value.fund - m.assets[mia].bit.value.fund else 0)
      - (if y == mia then a.supply - m.assets[mia].supply else 0)
  {
    SumUpdate(m.assets, mia, a, FundIn(y));
    SumUpdate(m.assets, mia, a, IssuedIn(y));
  }

  /** A redemption moves value, it creates none: of every asset, holdings less supply stay what they were. */
  lemma RedeemConserves(m: State, who: AccountId, mia: AssetId, amount: nat, y: AssetId)
    requires HasFund(m, mia) && Redeem(m, who, mia, amount).Some?
    ensures Net(Redeem(m, who, mia, amount).value, y) == Net(m, y)
  {
    hide Net, Credit, FromBase;
    var a, b := m.assets[mia], m.assets[mia].bit.value;
    var share := FromBase(amount, b.settlement.value);
    var spent := if amount == 0 then m else m.(balances := m.balances[(who, mia) := m.balances[(who, mia)] - amount]);
    if amount > 0 {
      DebitNet(m, who, mia, amount, y);
    }
    var a' := a.(supply := a.supply - amount, bit := Some(b.(fund := b.fund - share)));
    FundNet(spent, mia, a', y);
    CreditNet(spent.(assets := spent.assets[mia := a']), who, b.backing, share, y);
  }

  /** Who gets what: the holder pays the amount and gets its share of the fund, rounded down; nobody else is touched. */
  lemma RedeemPays(m: State, who: AccountId, mia: AssetId, amount: nat, a: AccountId, y: AssetId)
    requires HasFund(m, mia) && Redeem(m, who, mia, amount).Some?
    ensures var r, b := Redeem(m, who, mia, amount).value, m.assets[mia].bit.value;
      && mia in r.assets && r.assets[mia].bit.Some?
      && var share := b.fund - r.assets[mia].bit.value.fund; var p := b.settlement.value;
      && 0 <= share && share * p.baseAmount <= amount * p.quoteAmount < (share + 1) * p.baseAmount
      && Holding(r, a, y) == Holding(m, a, y)
           - (if a == who && y == mia then amount else 0) + (if a == who && y == b.backing then share else 0)
      && r == m.(balances := r.balances, assets := m.assets[mia := m.assets[mia].(
           supply := m.assets[mia].supply - amount, bit := Some(b.(fund := b.fund - share)))])
  {
    hide Holding, Credit, FromBase;
    SpentHolding(m, who, mia, amount, a, y);
    var x, b := m.assets[mia], m.assets[mia].bit.value;
    var share := FromBase(amount, b.settlement.value);
    var spent := if amount == 0 then m else m.(balances := m.balances[(who, mia) := m.balances[(who, mia)] - amount]);
    var paid := spent.(assets := spent.assets[mia :=
      x.(supply := x.supply - amount, bit := Some(b.(fund := b.fund - share)))]);
    ConversionsRoundDown(amount, b.settlement.value);
    CreditPays(paid, who, b.backing, share, a, y);
    CreditKeeps(paid, who, b.backing, share);
    SameHolding(spent, paid, a, y);
  }

  lemma SpentHolding(m: State, who: AccountId, x: AssetId, amount: nat, a: AccountId, y: AssetId)
    requires amount <= Holding(m, who, x)
    ensures amount > 0 ==> (who, x) in m.balances && amount <= m.balances[(who, x)]
    ensures var r := if amount == 0 then m else m.(balances := m.balances[(who, x) := m.balances[(who, x)] - amount]);
      Holding(r, a, y) == Holding(m, a, y) - if a == who && y == x then amount else 0
  {
  }

  datatype Request = Request(who: AccountId, amount: nat)

  /** Requests one after the other; a refused one changes nothing. */
  function RedeemAll(m: State, mia: AssetId, rs: seq<Request>): State
    requires HasFund(m, mia)
    decreases |rs|
  {
    if rs == [] then m
    else
      var r := Redeem(m, rs[0].who, mia, rs[0].amount);
      RedeemAll(if r.Some? then r.value else m, mia, rs[1..])
  }

  /** Whole runs: after any redemptions in any order the fund still covers what is left, and every asset is
      conserved. */
  lemma {:induction false} AlwaysSolvent(m: State, mia: AssetId, rs: seq<Request>)
    requires Solvent(m, mia) && Net(m, mia) <= 0
    ensures Solvent(RedeemAll(m, mia, rs), mia) && Conserves(m, RedeemAll(m, mia, rs))
    decreases |rs|
  {
    if rs != [] {
      hide Net, Solvent;
      FundNeverShort(m, rs[0].who, mia, rs[0].amount);
      var r := Redeem(m, rs[0].who, mia, rs[0].amount);
      var next := if r.Some? then r.value else m;
      forall y ensures Net(next, y) == Net(m, y) {
        if r.Some? { RedeemConserves(m, rs[0].who, mia, rs[0].amount, y); }
      }
      AlwaysSolvent(next, mia, rs[1..]);
    }
  }

  /** A global settlement leaves the fund solvent. */
  lemma SettlementIsSolvent(m: State, mia: AssetId)
    requires HasFund(m, mia) && m.assets[mia].supply >= 0
    requires m.assets[mia].bit.value.settlement ==
      Some(Price(mia, m.assets[mia].supply, m.assets[mia].bit.value.backing, m.assets[mia].bit.value.fund))
    ensures Solvent(m, mia)
  {
  }

  // ----- what rounding leaves behind

  function Paid(amounts: seq<nat>, p: Price): nat
    requires p.baseAmount > 0
  {
    if amounts == [] then 0 else FromBase(amounts[0], p) + Paid(amounts[1..], p)
  }

  function Total(amounts: seq<nat>): nat {
    if amounts == [] then 0 else amounts[0] + Total(amounts[1..])
  }

  /** Redeeming everything in n pieces leaves less than n units of the fund behind, and never overdraws it. */
  lemma {:induction false} RoundingLoss(amounts: seq<nat>, p: Price)
    requires p.baseAmount > 0
    ensures Paid(amounts, p) * p.baseAmount <= Total(amounts) * p.quoteAmount
    ensures Total(amounts) * p.quoteAmount <= Paid(amounts, p) * p.baseAmount + |amounts| * (p.baseAmount - 1)
  {
    if amounts != [] {
      RoundingLoss(amounts[1..], p);
      RoundingStep(amounts[0], p.quoteAmount, p.baseAmount, Total(amounts[1..]), Paid(amounts[1..], p), |amounts[1..]|);
    }
  }

  lemma RoundingStep(a: nat, g: nat, s: nat, t: nat, paid: nat, n: nat)
    requires s > 0 && paid * s <= t * g <= paid * s + n * (s - 1)
    ensures (a * g / s + paid) * s <= (a + t) * g <= (a * g / s + paid) * s + (n + 1) * (s - 1)
  {
    var ag := a * g;
    var share := ag / s;
    assert ag == share * s + ag % s;
    Distribute(a, t, g);
    Distribute(share, paid, s);
    Distribute(n, 1, s - 1);
  }
}
