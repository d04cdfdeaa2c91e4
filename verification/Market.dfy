/** Orders, positions and assets, and the three ways to fill an order. */
module Market {
  import opened Common
  import opened MapSums

  type AccountId = nat
  type AssetId = nat
  type OrderId = nat

  const CORE: AssetId := 0

  datatype Price = Price(base: AssetId, baseAmount: nat, quote: AssetId, quoteAmount: nat) {
    function Inverse(): Price { Price(quote, quoteAmount, base, baseAmount) }
  }

  /** Comparison within one market, by cross multiplication. */
  predicate AtLeast(a: Price, b: Price) {
    a.baseAmount * b.quoteAmount >= b.baseAmount * a.quoteAmount
  }

  /** An amount times a price rounds down, in either direction. */
  function FromBase(amount: nat, p: Price): nat
    requires p.baseAmount > 0
  {
    amount * p.quoteAmount / p.baseAmount
  }

  function FromQuote(amount: nat, p: Price): nat
    requires p.quoteAmount > 0
  {
    amount * p.baseAmount / p.quoteAmount
  }

  /** `price` is for the asset for sale against the asset wanted. */
  datatype LimitOrder = LimitOrder(seller: AccountId, forSale: nat, price: Price, deferredFee: nat)

  /** `price` is the call price: collateral asset against debt asset. */
  datatype CallOrder = CallOrder(borrower: AccountId, collateral: nat, debt: nat, price: Price) {
    /** Debt against collateral. */
    function SwanPrice(): Price { Price(price.quote, debt, price.base, collateral) }
  }

  datatype SettleOrder = SettleOrder(owner: AccountId, asset: AssetId, balance: nat, date: nat)

  /** `feed` and `squeeze` are absent while there is no valid feed. */
  datatype BitAsset = BitAsset(
    backing: AssetId, feed: Option<Price>, squeeze: Price, prediction: bool,
    settlement: Option<Price>, fund: nat,
    forceSettled: nat, maxVolumePercent: nat, offsetPercent: nat)

  datatype AssetInfo = AssetInfo(
    supply: int, fees: nat, chargesFees: bool, feePercent: nat, maxFee: nat, bit: Option<BitAsset>)

  datatype State = State(
    balances: map<(AccountId, AssetId), nat>,
    limits: map<OrderId, LimitOrder>,
    calls: map<OrderId, CallOrder>,
    settles: map<OrderId, SettleOrder>,
    assets: map<AssetId, AssetInfo>,
    pendingFees: map<AccountId, nat>)

  // ----- where an asset can be

  ghost function BalanceIn(x: AssetId): ((AccountId, AssetId), nat) -> int {
    (k: (AccountId, AssetId), v: nat) => if k.1 == x then v else 0
  }
  ghost function ForSaleIn(x: AssetId): (OrderId, LimitOrder) -> int {
    (k, o: LimitOrder) => if o.price.base == x then o.forSale else 0
  }
  ghost function DeferredIn(x: AssetId): (OrderId, LimitOrder) -> int {
    (k, o: LimitOrder) => if x == CORE then o.deferredFee else 0
  }
  ghost function CollateralIn(x: AssetId): (OrderId, CallOrder) -> int {
    (k, o: CallOrder) => if o.price.base == x then o.collateral else 0
  }
  ghost function DebtIn(x: AssetId): (OrderId, CallOrder) -> int {
    (k, o: CallOrder) => if o.price.quote == x then o.debt else 0
  }
  ghost function SettlingIn(x: AssetId): (OrderId, SettleOrder) -> int {
    (k, o: SettleOrder) => if o.asset == x then o.balance else 0
  }
  ghost function PendingIn(x: AssetId): (AccountId, nat) -> int { (k, v: nat) => if x == CORE then v else 0 }
  ghost function FundIn(x: AssetId): (AssetId, AssetInfo) -> int {
    (k, a: AssetInfo) => if a.bit.Some? && a.bit.value.backing == x then a.bit.value.fund else 0
  }
  /** Fees collected by the issuer count as holdings; the supply is what the holdings have to add up to. */
  ghost function IssuedIn(x: AssetId): (AssetId, AssetInfo) -> int {
    (k, a: AssetInfo) => if k == x then a.fees - a.supply else 0
  }

  /** Everything held of asset x, less its supply. */
  ghost function Net(m: State, x: AssetId): int {
    Sum(m.balances, BalanceIn(x)) + Sum(m.limits, ForSaleIn(x)) + Sum(m.limits, DeferredIn(x)) +
    Sum(m.calls, CollateralIn(x)) + Sum(m.settles, SettlingIn(x)) + Sum(m.pendingFees, PendingIn(x)) +
    Sum(m.assets, FundIn(x)) + Sum(m.assets, IssuedIn(x))
  }

  ghost function Debt(m: State, x: AssetId): int { Sum(m.calls, DebtIn(x)) }

  // ----- well-formed states

  predicate ValidPrice(p: Price) { p.base != p.quote && p.baseAmount > 0 && p.quoteAmount > 0 }

  predicate ValidBit(x: AssetId, b: BitAsset) {
    && b.backing != x
    && (b.feed.Some? ==> ValidPrice(b.feed.value) && b.feed.value.base == x && b.feed.value.quote == b.backing)
    && (b.feed.Some? ==> ValidPrice(b.squeeze) && b.squeeze.base == x && b.squeeze.quote == b.backing)
    && (b.settlement.None? ==> b.fund == 0)
    && b.offsetPercent <= HUNDRED_PERCENT && b.maxVolumePercent <= HUNDRED_PERCENT
  }

  predicate ValidAsset(m: State, x: AssetId) {
    && x in m.assets && m.assets[x].feePercent <= HUNDRED_PERCENT
    && (m.assets[x].bit.Some? ==> ValidBit(x, m.assets[x].bit.value) && m.assets[x].bit.value.backing in m.assets)
  }

  predicate ValidLimit(m: State, o: LimitOrder) {
    o.forSale > 0 && ValidPrice(o.price) && o.price.base in m.assets && o.price.quote in m.assets
  }

  predicate ValidCall(m: State, o: CallOrder) {
    && o.debt > 0 && ValidPrice(o.price)
    && o.price.base in m.assets && o.price.quote in m.assets
    && m.assets[o.price.quote].bit.Some? && m.assets[o.price.quote].bit.value.backing == o.price.base
  }

  predicate ValidSettle(m: State, o: SettleOrder) {
    o.asset in m.assets && m.assets[o.asset].bit.Some?
  }

  ghost predicate Valid(m: State) {
    && (forall x <- m.assets :: ValidAsset(m, x))
    && (forall id <- m.limits :: ValidLimit(m, m.limits[id]))
    && (forall id <- m.calls :: ValidCall(m, m.calls[id]))
    && (forall id <- m.settles :: ValidSettle(m, m.settles[id]))
  }

  // ----- what an account has

  function Holding(m: State, who: AccountId, x: AssetId): nat {
    if (who, x) in m.balances then m.balances[(who, x)] else 0
  }

  /** The fees an account has paid that have not been processed yet. */
  function Owed(m: State, who: AccountId): nat {
    if who in m.pendingFees then m.pendingFees[who] else 0
  }

  // ----- elementary moves

  function Credit(m: State, who: AccountId, x: AssetId, amount: nat): State {
    if amount == 0 then m
    else
      var had := if (who, x) in m.balances then m.balances[(who, x)] else 0;
      m.(balances := m.balances[(who, x) := had + amount])
  }

  lemma CreditNet(m: State, who: AccountId, x: AssetId, amount: nat, y: AssetId)
    ensures Net(Credit(m, who, x, amount), y) == Net(m, y) + if y == x then amount else 0
    ensures Credit(m, who, x, amount) == m.(balances := Credit(m, who, x, amount).balances)
  {
    hide Sum, BalanceIn;
    if amount > 0 {
      CreditSum(m.balances, who, x, amount, y);
    }
  }

  lemma CreditPays(m: State, who: AccountId, x: AssetId, amount: nat, a: AccountId, y: AssetId)
    ensures Holding(Credit(m, who, x, amount), a, y) == Holding(m, a, y) + if a == who && y == x then amount else 0
  {
  }

  lemma CreditSum(balances: map<(AccountId, AssetId), nat>, who: AccountId, x: AssetId, amount: nat, y: AssetId)
    ensures var had := if (who, x) in balances then balances[(who, x)] else 0;
      Sum(balances[(who, x) := had + amount], BalanceIn(y)) ==
      Sum(balances, BalanceIn(y)) + if y == x then amount else 0
  {
    hide Sum;
    var had := if (who, x) in balances then balances[(who, x)] else 0;
    SumUpdate<(AccountId, AssetId), nat>(balances, (who, x), had + amount, BalanceIn(y));
  }

  /** The issuer's percentage, rounded down and capped. */
  function MarketFee(a: AssetInfo, amount: nat): nat {
    if !a.chargesFees || a.feePercent == 0 then 0
    else
      var percent := amount * a.feePercent / HUNDRED_PERCENT;
      if percent > a.maxFee then a.maxFee else percent
  }

  /** No fee unless the asset charges one; otherwise the percentage of the amount, less than one unit short of it, or
      the maximum if that is reached first. */
  lemma FeeIs(a: AssetInfo, amount: nat)
    ensures var fee := MarketFee(a, amount);
      if !a.chargesFees then fee == 0
      else
        && fee <= a.maxFee && fee * HUNDRED_PERCENT <= amount * a.feePercent
        && (fee == a.maxFee || amount * a.feePercent < (fee + 1) * HUNDRED_PERCENT)
  {
  }

  lemma FeeAtMost(a: AssetInfo, amount: nat)
    requires a.feePercent <= HUNDRED_PERCENT
    ensures MarketFee(a, amount) <= amount
  {
    assert amount * a.feePercent <= amount * HUNDRED_PERCENT;
  }

  function Collect(m: State, x: AssetId, fee: nat): State
    requires x in m.assets
  {
    m.(assets := m.assets[x := m.assets[x].(fees := m.assets[x].fees + fee)])
  }

  lemma CollectNet(m: State, x: AssetId, fee: nat, y: AssetId)
    requires x in m.assets
    ensures Net(Collect(m, x, fee), y) == Net(m, y) + if y == x then fee else 0
  {
    hide Sum;
    var a' := m.assets[x].(fees := m.assets[x].fees + fee);
    SumUpdate(m.assets, x, a', FundIn(y));
    SumUpdate(m.assets, x, a', IssuedIn(y));
  }

  /** Pay out `amount` of asset x to the receiver of a trade, keeping the issuer's fee back. */
  function PayOut(m: State, who: AccountId, x: AssetId, amount: nat): State
    requires ValidAsset(m, x)
  {
    var fee := MarketFee(m.assets[x], amount);
    FeeAtMost(m.assets[x], amount);
    Credit(Collect(m, x, fee), who, x, amount - fee)
  }

  /** What the receiver of a trade gets: all but the fee. */
  function Proceeds(m: State, x: AssetId, amount: nat): nat
    requires ValidAsset(m, x)
  {
    FeeAtMost(m.assets[x], amount);
    amount - MarketFee(m.assets[x], amount)
  }

  lemma PayOutPays(m: State, who: AccountId, x: AssetId, amount: nat, a: AccountId, y: AssetId)
    requires ValidAsset(m, x)
    ensures var r := PayOut(m, who, x, amount);
      && Holding(r, a, y) == Holding(m, a, y) + (if a == who && y == x then Proceeds(m, x, amount) else 0)
      && r.pendingFees == m.pendingFees && r.limits == m.limits
      && r.assets == m.assets[x := m.assets[x].(fees := m.assets[x].fees + MarketFee(m.assets[x], amount))]
  {
    hide MarketFee, Holding;
    FeeAtMost(m.assets[x], amount);
    CreditPays(Collect(m, x, MarketFee(m.assets[x], amount)), who, x, Proceeds(m, x, amount), a, y);
    SameHolding(m, Collect(m, x, MarketFee(m.assets[x], amount)), a, y);
  }

  lemma SameHolding(m: State, r: State, a: AccountId, y: AssetId)
    requires r.balances == m.balances
    ensures Holding(r, a, y) == Holding(m, a, y)
  {
  }

  lemma PayOutNet(m: State, who: AccountId, x: AssetId, amount: nat, y: AssetId)
    requires ValidAsset(m, x)
    ensures var r := PayOut(m, who, x, amount);
      && Net(r, y) == Net(m, y) + (if y == x then amount else 0)
      && r == m.(balances := r.balances, assets := r.assets)
      && r.assets == m.assets[x := m.assets[x].(fees := r.assets[x].fees)]
  {
    hide Net, MarketFee;
    var fee := MarketFee(m.assets[x], amount);
    FeeAtMost(m.assets[x], amount);
    CollectNet(m, x, fee, y);
    CreditNet(Collect(m, x, fee), who, x, amount - fee, y);
  }

  /** The fee that was held back with the order becomes the seller's pending fee. */
  function PayDeferred(m: State, who: AccountId, fee: nat): State {
    if fee == 0 then m
    else m.(pendingFees := m.pendingFees[who := (if who in m.pendingFees then m.pendingFees[who] else 0) + fee])
  }

  lemma PayDeferredPays(m: State, who: AccountId, fee: nat, a: AccountId)
    ensures Owed(PayDeferred(m, who, fee), a) == Owed(m, a) + if a == who then fee else 0
  {
  }

  lemma PayDeferredNet(m: State, who: AccountId, fee: nat, y: AssetId)
    ensures Net(PayDeferred(m, who, fee), y) == Net(m, y) + if y == CORE then fee else 0
    ensures PayDeferred(m, who, fee) == m.(pendingFees := PayDeferred(m, who, fee).pendingFees)
  {
    hide Sum, PendingIn;
    if fee > 0 {
      PendingSum(m.pendingFees, who, fee, y);
    }
  }

  lemma PendingSum(pending: map<AccountId, nat>, who: AccountId, fee: nat, y: AssetId)
    ensures var had := if who in pending then pending[who] else 0;
      Sum(pending[who := had + fee], PendingIn(y)) == Sum(pending, PendingIn(y)) + if y == CORE then fee else 0
  {
    hide Sum;
    var had := if who in pending then pending[who] else 0;
    SumUpdate<AccountId, nat>(pending, who, had + fee, PendingIn(y));
  }

  function SetLimit(m: State, id: OrderId, o: LimitOrder): State { m.(limits := m.limits[id := o]) }
  function DropLimit(m: State, id: OrderId): State { m.(limits := m.limits - {id}) }

  lemma SetLimitNet(m: State, id: OrderId, o: LimitOrder, y: AssetId)
    requires id in m.limits
    ensures Net(SetLimit(m, id, o), y) == Net(m, y) + LimitHoldings(o, y) - LimitHoldings(m.limits[id], y)
  {
    hide Sum;
    SumUpdate(m.limits, id, o, ForSaleIn(y));
    SumUpdate(m.limits, id, o, DeferredIn(y));
  }

  lemma DropLimitNet(m: State, id: OrderId, y: AssetId)
    requires id in m.limits
    ensures Net(DropLimit(m, id), y) == Net(m, y) - LimitHoldings(m.limits[id], y)
  {
    hide Sum;
    SumRemove(m.limits, id, ForSaleIn(y));
    SumRemove(m.limits, id, DeferredIn(y));
  }

  ghost function LimitHoldings(o: LimitOrder, y: AssetId): int {
    (if o.price.base == y then o.forSale else 0) + (if y == CORE then o.deferredFee else 0)
  }

  /** Refund what is left of the order and the fee held back with it. */
  function CancelLimit(m: State, id: OrderId): State
    requires id in m.limits
  {
    var o := m.limits[id];
    DropLimit(Credit(Credit(m, o.seller, o.price.base, o.forSale), o.seller, CORE, o.deferredFee), id)
  }

  lemma CancelLimitNet(m: State, id: OrderId, y: AssetId)
    requires id in m.limits
    ensures Net(CancelLimit(m, id), y) == Net(m, y)
    ensures CancelLimit(m, id) == m.(balances := CancelLimit(m, id).balances, limits := m.limits - {id})
  {
    var o := m.limits[id];
    CreditNet(m, o.seller, o.price.base, o.forSale, y);
    var m1 := Credit(m, o.seller, o.price.base, o.forSale);
    CreditNet(m1, o.seller, CORE, o.deferredFee, y);
    DropLimitNet(Credit(m1, o.seller, CORE, o.deferredFee), id, y);
  }

  /** The seller gets both back. */
  lemma CancelLimitPays(m: State, id: OrderId, a: AccountId, y: AssetId)
    requires id in m.limits
    ensures var o, r := m.limits[id], CancelLimit(m, id);
      && Holding(r, a, y) == Holding(m, a, y)
           + (if a == o.seller && y == o.price.base then o.forSale else 0)
           + (if a == o.seller && y == CORE then o.deferredFee else 0)
      && r == m.(balances := r.balances, limits := m.limits - {id})
  {
    hide Holding;
    var o := m.limits[id];
    CreditPays(m, o.seller, o.price.base, o.forSale, a, y);
    var m1 := Credit(m, o.seller, o.price.base, o.forSale);
    CreditPays(m1, o.seller, CORE, o.deferredFee, a, y);
    SameHolding(Credit(m1, o.seller, CORE, o.deferredFee), CancelLimit(m, id), a, y);
  }

  /** What is left of a partly filled order; `cull` cancels it when it asks for nothing any more. */
  function FillLimit(m: State, id: OrderId, pays: nat, receives: nat, cull: bool): State
    requires id in m.limits && ValidPrice(m.limits[id].price) && ValidAsset(m, m.limits[id].price.quote)
    requires pays <= m.limits[id].forSale
  {
    var o := m.limits[id];
    var paid := PayDeferred(PayOut(m, o.seller, o.price.quote, receives), o.seller, o.deferredFee);
    if pays == o.forSale then DropLimit(paid, id)
    else
      var left := o.(forSale := o.forSale - pays, deferredFee := 0);
      var kept := SetLimit(paid, id, left);
      if cull && FromBase(left.forSale, left.price) == 0 then CancelLimit(kept, id) else kept
  }

  /** The state differs from `m` only in balances, pending fees, collected fees and order `id`. */
  ghost predicate OnlyLimit(m: State, r: State, id: OrderId) {
    && r.calls == m.calls && r.settles == m.settles
    && r.assets.Keys == m.assets.Keys
    && (forall x <- m.assets :: r.assets[x] == m.assets[x].(fees := r.assets[x].fees))
    && r.limits - {id} == m.limits - {id}
  }

  /** A limit order gives `pays` of what it sells and gets `receives` of what it wants; nothing else moves. */
  lemma FillLimitFlow(m: State, id: OrderId, pays: nat, receives: nat, cull: bool, y: AssetId)
    requires id in m.limits && ValidPrice(m.limits[id].price) && ValidAsset(m, m.limits[id].price.quote)
    requires pays <= m.limits[id].forSale
    ensures var o, r := m.limits[id], FillLimit(m, id, pays, receives, cull);
      && Net(r, y) == Net(m, y) - (if y == o.price.base then pays else 0) + (if y == o.price.quote then receives else 0)
      && OnlyLimit(m, r, id)
      && (id in r.limits ==> pays < o.forSale && r.limits[id] == o.(forSale := o.forSale - pays, deferredFee := 0))
      && (pays < o.forSale && !cull ==> id in r.limits)
  {
    hide Net, PayOut, PayDeferred, CancelLimit;
    var o := m.limits[id];
    PayOutNet(m, o.seller, o.price.quote, receives, y);
    var m1 := PayOut(m, o.seller, o.price.quote, receives);
    PayDeferredNet(m1, o.seller, o.deferredFee, y);
    var paid := PayDeferred(m1, o.seller, o.deferredFee);
    if pays == o.forSale {
      DropLimitNet(paid, id, y);
    } else {
      var left := o.(forSale := o.forSale - pays, deferredFee := 0);
      SetLimitNet(paid, id, left, y);
      assert m.limits[id := left] - {id} == m.limits - {id};
      CancelLimitNet(SetLimit(paid, id, left), id, y);
    }
  }

  /** Who gets what from a filled limit order: its seller the proceeds, and the rest of the order back exactly if that
      asks for nothing and is to be culled. The fee held back with it is the seller's too; the issuer's fee is
      collected. Nobody else is paid. */
  lemma FillLimitPays(m: State, id: OrderId, pays: nat, receives: nat, cull: bool, a: AccountId, y: AssetId)
    requires id in m.limits && ValidPrice(m.limits[id].price) && ValidAsset(m, m.limits[id].price.quote)
    requires pays <= m.limits[id].forSale
    ensures var o, r := m.limits[id], FillLimit(m, id, pays, receives, cull);
      var x, culled := o.price.quote, cull && pays < o.forSale && FromBase(o.forSale - pays, o.price) == 0;
      && Holding(r, a, y) == Holding(m, a, y)
           + (if a == o.seller && y == x then Proceeds(m, x, receives) else 0)
           + (if culled && a == o.seller && y == o.price.base then o.forSale - pays else 0)
      && Owed(r, a) == Owed(m, a) + (if a == o.seller then o.deferredFee else 0)
      && r.assets == m.assets[x := m.assets[x].(fees := m.assets[x].fees + MarketFee(m.assets[x], receives))]
      && (id in r.limits <==> pays < o.forSale && !culled)
      && (id in r.limits ==> r.limits[id] == o.(forSale := o.forSale - pays, deferredFee := 0))
  {
    hide Holding, PayOut, PayDeferred, CancelLimit, MarketFee, Proceeds, FromBase, Owed;
    var o := m.limits[id];
    PayOutPays(m, o.seller, o.price.quote, receives, a, y);
    var m1 := PayOut(m, o.seller, o.price.quote, receives);
    PayDeferredKeeps(m1, o.seller, o.deferredFee);
    PayDeferredPays(m1, o.seller, o.deferredFee, a);
    var paid := PayDeferred(m1, o.seller, o.deferredFee);
    SameHolding(m1, paid, a, y);
    SameOwed(m, m1, a);
    if pays == o.forSale {
      SameHolding(paid, DropLimit(paid, id), a, y);
      SameOwed(paid, DropLimit(paid, id), a);
    } else {
      var kept := SetLimit(paid, id, o.(forSale := o.forSale - pays, deferredFee := 0));
      SameHolding(paid, kept, a, y);
      SameOwed(paid, kept, a);
      CancelLimitPays(kept, id, a, y);
      SameOwed(kept, CancelLimit(kept, id), a);
    }
  }

  lemma SameOwed(m: State, r: State, a: AccountId)
    requires r.pendingFees == m.pendingFees
    ensures Owed(r, a) == Owed(m, a)
  {
  }

  lemma PayDeferredKeeps(m: State, who: AccountId, fee: nat)
    ensures PayDeferred(m, who, fee) == m.(pendingFees := PayDeferred(m, who, fee).pendingFees)
  {
  }

  function SetSupply(m: State, x: AssetId, supply: int): State
    requires x in m.assets
  {
    m.(assets := m.assets[x := m.assets[x].(supply := supply)])
  }

  lemma SetSupplyNet(m: State, x: AssetId, supply: int, y: AssetId)
    requires x in m.assets
    ensures Net(SetSupply(m, x, supply), y) == Net(m, y) - if y == x then supply - m.assets[x].supply else 0
  {
    hide Sum;
    SumUpdate(m.assets, x, m.assets[x].(supply := supply), FundIn(y));
    SumUpdate(m.assets, x, m.assets[x].(supply := supply), IssuedIn(y));
  }

  function SetCall(m: State, id: OrderId, o: CallOrder): State { m.(calls := m.calls[id := o]) }
  function DropCall(m: State, id: OrderId): State { m.(calls := m.calls - {id}) }

  lemma SetCallNet(m: State, id: OrderId, o: CallOrder, y: AssetId)
    requires id in m.calls && o.price == m.calls[id].price
    ensures Net(SetCall(m, id, o), y) ==
      Net(m, y) + if y == o.price.base then o.collateral - m.calls[id].collateral else 0
    ensures Debt(SetCall(m, id, o), y) == Debt(m, y) + if y == o.price.quote then o.debt - m.calls[id].debt else 0
  {
    hide Sum;
    SumUpdate(m.calls, id, o, CollateralIn(y));
    SumUpdate(m.calls, id, o, DebtIn(y));
  }

  lemma DropCallNet(m: State, id: OrderId, y: AssetId)
    requires id in m.calls
    ensures var o := m.calls[id];
      && Net(DropCall(m, id), y) == Net(m, y) - (if y == o.price.base then o.collateral else 0)
      && Debt(DropCall(m, id), y) == Debt(m, y) - (if y == o.price.quote then o.debt else 0)
  {
    hide Sum;
    SumRemove(m.calls, id, CollateralIn(y));
    SumRemove(m.calls, id, DebtIn(y));
  }

  /** A position covers `receives` of its debt with `pays` of its collateral; once the debt is gone, so is the
      position, and what is left of the collateral goes back to the borrower. */
  function FillCall(m: State, id: OrderId, pays: nat, receives: nat): State
    requires id in m.calls && m.calls[id].price.quote in m.assets
    requires pays <= m.calls[id].collateral && receives <= m.calls[id].debt
  {
    var o := m.calls[id];
    var burnt := SetSupply(m, o.price.quote, m.assets[o.price.quote].supply - receives);
    if receives == o.debt then
      Credit(DropCall(burnt, id), o.borrower, o.price.base, o.collateral - pays)
    else
      SetCall(burnt, id, o.(debt := o.debt - receives, collateral := o.collateral - pays))
  }

  ghost predicate OnlyCall(m: State, r: State, id: OrderId, debtAsset: AssetId) {
    && r.limits == m.limits && r.settles == m.settles && r.pendingFees == m.pendingFees
    && debtAsset in m.assets && debtAsset in r.assets
    && r.assets == SetSupply(m, debtAsset, r.assets[debtAsset].supply).assets
    && r.calls - {id} == m.calls - {id}
  }

  lemma FillCallTouches(m: State, id: OrderId, pays: nat, receives: nat)
    requires id in m.calls && m.calls[id].price.quote in m.assets
    requires pays <= m.calls[id].collateral && receives <= m.calls[id].debt
    ensures var o, r := m.calls[id], FillCall(m, id, pays, receives);
      && OnlyCall(m, r, id, o.price.quote)
      && r.assets[o.price.quote].supply == m.assets[o.price.quote].supply - receives
  {
    hide SetSupply, Credit;
    var o := m.calls[id];
    var burnt := SetSupply(m, o.price.quote, m.assets[o.price.quote].supply - receives);
    SetSupplyKeeps(m, o.price.quote, m.assets[o.price.quote].supply - receives);
    if receives == o.debt {
      CreditKeeps(DropCall(burnt, id), o.borrower, o.price.base, o.collateral - pays);
    } else {
      var left := o.(debt := o.debt - receives, collateral := o.collateral - pays);
      assert m.calls[id := left] - {id} == m.calls - {id};
    }
  }

  lemma SetSupplyKeeps(m: State, x: AssetId, supply: int)
    requires x in m.assets
    ensures var r := SetSupply(m, x, supply);
      && r.balances == m.balances && r.limits == m.limits && r.calls == m.calls && r.settles == m.settles
      && r.pendingFees == m.pendingFees && x in r.assets && r.assets[x].supply == supply
  {
  }

  lemma CreditKeeps(m: State, who: AccountId, x: AssetId, amount: nat)
    ensures var r := Credit(m, who, x, amount);
      && r.limits == m.limits && r.calls == m.calls && r.settles == m.settles
      && r.assets == m.assets && r.pendingFees == m.pendingFees
  {
  }

  lemma FillCallLeaves(m: State, id: OrderId, pays: nat, receives: nat)
    requires id in m.calls && m.calls[id].price.quote in m.assets
    requires pays <= m.calls[id].collateral && receives <= m.calls[id].debt
    ensures var o, r := m.calls[id], FillCall(m, id, pays, receives);
      && (id in r.calls <==> receives < o.debt)
      && (id in r.calls ==> r.calls[id] == o.(debt := o.debt - receives, collateral := o.collateral - pays))
  {
  }

  /** Which entries change: this position, or nothing of it is left, and the supply of what it owes. */
  lemma FillCallShape(m: State, id: OrderId, pays: nat, receives: nat)
    requires id in m.calls && m.calls[id].price.quote in m.assets
    requires pays <= m.calls[id].collateral && receives <= m.calls[id].debt
    ensures var o, r := m.calls[id], FillCall(m, id, pays, receives);
      && OnlyCall(m, r, id, o.price.quote)
      && r.assets[o.price.quote].supply == m.assets[o.price.quote].supply - receives
      && (id in r.calls <==> receives < o.debt)
      && (id in r.calls ==> r.calls[id] == o.(debt := o.debt - receives, collateral := o.collateral - pays))
  {
    FillCallTouches(m, id, pays, receives);
    FillCallLeaves(m, id, pays, receives);
    hide FillCall;
  }

  /** The borrower gets what is left of the collateral exactly if the debt is covered; nobody else is paid. */
  lemma FillCallPays(m: State, id: OrderId, pays: nat, receives: nat, a: AccountId, y: AssetId)
    requires id in m.calls && m.calls[id].price.quote in m.assets
    requires pays <= m.calls[id].collateral && receives <= m.calls[id].debt
    ensures var o, r := m.calls[id], FillCall(m, id, pays, receives);
      && Holding(r, a, y) == Holding(m, a, y)
           + (if receives == o.debt && a == o.borrower && y == o.price.base then o.collateral - pays else 0)
      && r.pendingFees == m.pendingFees
  {
    hide Holding, SetSupply, Credit;
    var o, r := m.calls[id], FillCall(m, id, pays, receives);
    var x, supply := o.price.quote, m.assets[o.price.quote].supply - receives;
    SetSupplyKeeps(m, x, supply);
    var burnt := SetSupply(m, x, supply);
    if receives == o.debt {
      CreditPays(DropCall(burnt, id), o.borrower, o.price.base, o.collateral - pays, a, y);
      CreditKeeps(DropCall(burnt, id), o.borrower, o.price.base, o.collateral - pays);
      SameHolding(m, DropCall(burnt, id), a, y);
    } else {
      SameHolding(m, r, a, y);
    }
  }

  /** What a position receives is burnt: the supply falls with it, and so does the total debt. */
  lemma FillCallFlow(m: State, id: OrderId, pays: nat, receives: nat, y: AssetId)
    requires id in m.calls && m.calls[id].price.quote in m.assets
    requires pays <= m.calls[id].collateral && receives <= m.calls[id].debt
    ensures var o, r := m.calls[id], FillCall(m, id, pays, receives);
      && Net(r, y) == Net(m, y) - (if y == o.price.base then pays else 0) + (if y == o.price.quote then receives else 0)
      && Debt(r, y) == Debt(m, y) - (if y == o.price.quote then receives else 0)
  {
    hide Net;
    var o := m.calls[id];
    var burnt := SetSupply(m, o.price.quote, m.assets[o.price.quote].supply - receives);
    SetSupplyNet(m, o.price.quote, m.assets[o.price.quote].supply - receives, y);
    assert Debt(burnt, y) == Debt(m, y);
    if receives == o.debt {
      DropCallNet(burnt, id, y);
      CreditNet(DropCall(burnt, id), o.borrower, o.price.base, o.collateral - pays, y);
      CreditKeepsDebt(DropCall(burnt, id), o.borrower, o.price.base, o.collateral - pays, y);
    } else {
      SetCallNet(burnt, id, o.(debt := o.debt - receives, collateral := o.collateral - pays), y);
    }
  }

  lemma CreditKeepsDebt(m: State, who: AccountId, x: AssetId, amount: nat, y: AssetId)
    ensures Debt(Credit(m, who, x, amount), y) == Debt(m, y)
  {
  }

  function SetSettle(m: State, id: OrderId, o: SettleOrder): State { m.(settles := m.settles[id := o]) }
  function DropSettle(m: State, id: OrderId): State { m.(settles := m.settles - {id}) }

  lemma SetSettleNet(m: State, id: OrderId, o: SettleOrder, y: AssetId)
    requires id in m.settles && o.asset == m.settles[id].asset
    ensures Net(SetSettle(m, id, o), y) == Net(m, y) + if y == o.asset then o.balance - m.settles[id].balance else 0
  {
    hide Sum;
    SumUpdate(m.settles, id, o, SettlingIn(y));
  }

  lemma DropSettleNet(m: State, id: OrderId, y: AssetId)
    requires id in m.settles
    ensures Net(DropSettle(m, id), y) == Net(m, y) - if y == m.settles[id].asset then m.settles[id].balance else 0
  {
    hide Sum;
    SumRemove(m.settles, id, SettlingIn(y));
  }

  function FillSettle(m: State, id: OrderId, pays: nat, receives: nat, receiveAsset: AssetId): State
    requires id in m.settles && pays <= m.settles[id].balance && ValidAsset(m, receiveAsset)
  {
    var o := m.settles[id];
    var paid := PayOut(m, o.owner, receiveAsset, receives);
    if pays < o.balance then SetSettle(paid, id, o.(balance := o.balance - pays)) else DropSettle(paid, id)
  }

  lemma FillSettleFlow(m: State, id: OrderId, pays: nat, receives: nat, receiveAsset: AssetId, y: AssetId)
    requires id in m.settles && pays <= m.settles[id].balance && ValidAsset(m, receiveAsset)
    ensures var o, r := m.settles[id], FillSettle(m, id, pays, receives, receiveAsset);
      && Net(r, y) == Net(m, y) - (if y == o.asset then pays else 0) + (if y == receiveAsset then receives else 0)
      && r.calls == m.calls && r.limits == m.limits && r.assets.Keys == m.assets.Keys
      && (forall x <- m.assets :: r.assets[x] == m.assets[x].(fees := r.assets[x].fees))
      && (id in r.settles <==> pays < o.balance)
      && r.settles == (if pays < o.balance then m.settles[id := o.(balance := o.balance - pays)] else m.settles - {id})
  {
    hide Net;
    var o := m.settles[id];
    PayOutNet(m, o.owner, receiveAsset, receives, y);
    var paid := PayOut(m, o.owner, receiveAsset, receives);
    SetSettleNet(paid, id, o.(balance := o.balance - pays), y);
    DropSettleNet(paid, id, y);
  }

  /** The owner gets the proceeds; nobody else is paid. */
  lemma FillSettlePays(m: State, id: OrderId, pays: nat, receives: nat, x: AssetId, a: AccountId, y: AssetId)
    requires id in m.settles && pays <= m.settles[id].balance && ValidAsset(m, x)
    ensures var o, r := m.settles[id], FillSettle(m, id, pays, receives, x);
      && Holding(r, a, y) == Holding(m, a, y) + (if a == o.owner && y == x then Proceeds(m, x, receives) else 0)
      && r.assets == m.assets[x := m.assets[x].(fees := m.assets[x].fees + MarketFee(m.assets[x], receives))]
      && r.pendingFees == m.pendingFees
  {
    hide Holding, PayOut, MarketFee, Proceeds;
    var o, r := m.settles[id], FillSettle(m, id, pays, receives, x);
    PayOutPays(m, o.owner, x, receives, a, y);
    SameHolding(PayOut(m, o.owner, x, receives), r, a, y);
  }

  function CancelSettle(m: State, id: OrderId): State
    requires id in m.settles
  {
    var o := m.settles[id];
    DropSettle(Credit(m, o.owner, o.asset, o.balance), id)
  }

  lemma CancelSettleNet(m: State, id: OrderId, y: AssetId)
    requires id in m.settles
    ensures Net(CancelSettle(m, id), y) == Net(m, y)
    ensures CancelSettle(m, id) == m.(balances := CancelSettle(m, id).balances, settles := m.settles - {id})
  {
    var o := m.settles[id];
    CreditNet(m, o.owner, o.asset, o.balance, y);
    DropSettleNet(Credit(m, o.owner, o.asset, o.balance), id, y);
  }

  lemma CancelSettlePays(m: State, id: OrderId, a: AccountId, y: AssetId)
    requires id in m.settles
    ensures var o, r := m.settles[id], CancelSettle(m, id);
      Holding(r, a, y) == Holding(m, a, y) + (if a == o.owner && y == o.asset then o.balance else 0)
  {
    hide Holding;
    var o := m.settles[id];
    CreditPays(m, o.owner, o.asset, o.balance, a, y);
    SameHolding(Credit(m, o.owner, o.asset, o.balance), CancelSettle(m, id), a, y);
  }
}
