/** The matching loops over the order book: limit orders, margin calls and black swans. */
module Exchange {
  import opened Common
  import opened Arithmetic
  import opened MapSums
  import opened Market
  import opened PriceIndex
  import opened Matching

  /** A throwing call is unwound by the session around it. */
  datatype Outcome = Thrown | Done(flag: bool)

  /** The orders on the other side of the book that meet the limit of `price`. */
  function Crossing(m: State, price: Price): map<OrderId, Price> {
    map id | id in m.limits && m.limits[id].price.base == price.quote && m.limits[id].price.quote == price.base
             && AtLeast(m.limits[id].price, price.Inverse()) :: m.limits[id].price
  }

  /** The orders that sell `mia` for its backing asset at `floor` or better and that have not been passed yet. */
  function Bids(m: State, mia: AssetId, backing: AssetId, floor: Price, passed: set<OrderId>): map<OrderId, Price> {
    map id | id in m.limits && m.limits[id].price.base == mia && m.limits[id].price.quote == backing
             && AtLeast(m.limits[id].price, floor) && id !in passed :: m.limits[id].price
  }

  /** The margin positions in `mia`, the lowest call price first. */
  function Positions(m: State, mia: AssetId): map<OrderId, Price> {
    map id | id in m.calls && m.calls[id].price.quote == mia :: m.calls[id].price.Inverse()
  }

  predicate Unsettled(m: State, mia: AssetId) {
    mia in m.assets && m.assets[mia].bit.Some? && m.assets[mia].bit.value.settlement.None?
  }

  /** The price at which a position in `mia` may be closed. */
  predicate ClosingPrice(m: State, mia: AssetId, price: Price) {
    Unsettled(m, mia) && price.base == mia && price.quote == m.assets[mia].bit.value.backing && price.baseAmount > 0
  }

  lemma BestOf(prices: map<OrderId, Price>)
    requires prices != map[] && forall i <- prices :: prices[i].baseAmount > 0
    ensures exists i :: i in prices && IsBest(prices, i)
  {
    BestExists(prices);
    var i :| IsBest(prices, i);
    assert i in prices && IsBest(prices, i);
  }

  /** All orders that sell `mia` for its backing asset. */
  function AllBids(m: State, mia: AssetId, backing: AssetId): map<OrderId, Price> {
    Bids(m, mia, backing, Price(mia, 0, backing, 1), {})
  }

  /** The position with the lowest call price is worth no more than the feed and than the best bid. */
  ghost predicate BlackSwan(m: State, mia: AssetId) {
    && Unsettled(m, mia) && m.assets[mia].bit.value.feed.Some?
    && exists id :: IsBest(Positions(m, mia), id)
         && AtLeast(m.calls[id].SwanPrice(), m.assets[mia].bit.value.feed.value)
         && forall bid <- AllBids(m, mia, m.assets[mia].bit.value.backing) ::
              AtLeast(m.calls[id].SwanPrice(), m.limits[bid].price)
  }

  /** The highest of the feed and the bids. */
  ghost predicate IsHighest(m: State, mia: AssetId, backing: AssetId, feed: Price, highest: Price) {
    && highest.baseAmount > 0 && AtLeast(highest, feed)
    && (forall bid <- AllBids(m, mia, backing) :: AtLeast(highest, m.limits[bid].price))
    && (highest == feed || exists bid :: bid in AllBids(m, mia, backing) && m.limits[bid].price == highest)
  }

  lemma OneBest(prices: map<OrderId, Price>, i: OrderId, j: OrderId)
    requires IsBest(prices, i) && IsBest(prices, j)
    ensures i == j
  {
    assert Before(prices[i], i, prices[j], j) && Before(prices[j], j, prices[i], i);
  }

  /** Comparing with the highest of them is comparing with all of them. */
  lemma SwanIsExact(m: State, mia: AssetId, id: OrderId, highest: Price)
    requires Inv(m) && Unsettled(m, mia) && m.assets[mia].bit.value.feed.Some? && IsBest(Positions(m, mia), id)
    requires IsHighest(m, mia, m.assets[mia].bit.value.backing, m.assets[mia].bit.value.feed.value, highest)
    ensures AtLeast(m.calls[id].SwanPrice(), highest) <==> BlackSwan(m, mia)
  {
    hide Inv, Net, AtLeast;
    var b := m.assets[mia].bit.value;
    var bids, swan := AllBids(m, mia, b.backing), m.calls[id].SwanPrice();
    CallFacts(m, id);
    AssetFacts(m, mia);
    BidsPositive(m, mia, b.backing, Price(mia, 0, b.backing, 1), {});
    if AtLeast(swan, highest) {
      AtLeastTransitive(swan, highest, b.feed.value);
      forall bid | bid in bids ensures AtLeast(swan, m.limits[bid].price) {
        AtLeastTransitive(swan, highest, bids[bid]);
      }
    }
    if BlackSwan(m, mia) {
      var other :| IsBest(Positions(m, mia), other) && AtLeast(m.calls[other].SwanPrice(), b.feed.value)
        && forall bid <- bids :: AtLeast(m.calls[other].SwanPrice(), m.limits[bid].price);
      OneBest(Positions(m, mia), id, other);
    }
  }

  lemma ConservesSelf(a: State)
    ensures Conserves(a, a)
  {
  }

  /** What trading keeps: the book is well formed, every asset is conserved, no order is new and none changes price. */
  ghost predicate Traded(m: State, r: State) {
    && Inv(r) && Conserves(m, r) && r.assets.Keys == m.assets.Keys
    && r.limits.Keys <= m.limits.Keys && (forall i <- r.limits :: r.limits[i].price == m.limits[i].price)
  }

  lemma TradedSelf(m: State)
    requires Inv(m)
    ensures Traded(m, m)
  {
    hide Inv, Conserves;
    ConservesSelf(m);
  }

  lemma TradedMeans(m: State, r: State, id: OrderId)
    requires Traded(m, r)
    ensures Inv(r) && r.assets.Keys == m.assets.Keys
    ensures id in r.limits ==> id in m.limits && r.limits[id].price == m.limits[id].price
  {
  }

  lemma TradedTwice(a: State, b: State, c: State)
    requires Traded(a, b) && Traded(b, c)
    ensures Traded(a, c)
  {
    hide Inv, Conserves;
    ConservesTransitive(a, b, c);
  }

  lemma TradedOn(a: State, b: State, c: State)
    requires Traded(a, b) && Inv(c) && Conserves(b, c) && c.assets.Keys == b.assets.Keys
    requires c.limits.Keys <= b.limits.Keys && (forall i <- c.limits :: c.limits[i].price == b.limits[i].price)
    ensures Traded(a, c)
  {
    hide Inv, Conserves;
    ConservesTransitive(a, b, c);
  }

  lemma ConservesTransitive(a: State, b: State, c: State)
    requires Conserves(a, b) && Conserves(b, c)
    ensures Conserves(a, c)
  {
    hide Net;
    forall y ensures Net(c, y) == Net(a, y) {
      assert Net(b, y) == Net(a, y);
    }
  }

  lemma MapSmaller<K, V>(a: map<K, V>, b: map<K, V>)
    requires a.Keys <= b.Keys
    ensures |a| <= |b|
    ensures a.Keys != b.Keys ==> |a| < |b|
  {
    assert |a| == |a.Keys| && |b| == |b.Keys|;
    SetSmaller(a.Keys, b.Keys);
  }

  lemma SetSmaller<T>(a: set<T>, b: set<T>)
    requires a <= b
    ensures |a| <= |b| && (a != b ==> |a| < |b|)
  {
    assert b == a + (b - a);
  }

  lemma PositionsPositive(m: State, mia: AssetId)
    requires Inv(m)
    ensures forall i <- Positions(m, mia) :: i in m.calls && Positions(m, mia)[i].baseAmount > 0
  {
    forall i | i in Positions(m, mia) ensures Positions(m, mia)[i].baseAmount > 0 {
      assert ValidCall(m, m.calls[i]);
    }
  }

  lemma BidsPositive(m: State, mia: AssetId, backing: AssetId, floor: Price, passed: set<OrderId>)
    requires Inv(m)
    ensures var bids := Bids(m, mia, backing, floor, passed);
      forall i <- bids :: bids[i].baseAmount > 0 && i in m.limits && ValidPrice(m.limits[i].price)
        && m.limits[i].price.base == mia && m.limits[i].price.quote == backing
  {
    var bids := Bids(m, mia, backing, floor, passed);
    forall i | i in bids ensures bids[i].baseAmount > 0 {
      assert ValidLimit(m, m.limits[i]);
    }
  }

  /** The bids still to be looked at after one more round. */
  lemma BidsShrink(m: State, r: State, mia: AssetId, backing: AssetId, floor: Price,
                   passed: set<OrderId>, passed': set<OrderId>, bid: OrderId)
    requires r.limits.Keys <= m.limits.Keys && (forall i <- r.limits :: r.limits[i].price == m.limits[i].price)
    requires passed' == passed || passed' == passed + {bid}
    ensures Bids(r, mia, backing, floor, passed').Keys <= Bids(m, mia, backing, floor, passed).Keys
    ensures bid in passed' ==> bid !in Bids(r, mia, backing, floor, passed')
  {
    hide AtLeast;
  }

  lemma CrossingPositive(m: State, price: Price)
    requires Inv(m)
    ensures forall i <- Crossing(m, price) :: (
      && Crossing(m, price)[i].baseAmount > 0 && i in m.limits
      && m.limits[i].price.base == price.quote && m.limits[i].price.quote == price.base
      && AtLeast(m.limits[i].price, price.Inverse()))
  {
    forall i | i in Crossing(m, price) ensures Crossing(m, price)[i].baseAmount > 0 {
      assert ValidLimit(m, m.limits[i]);
    }
  }

  lemma CrossingShrinks(m: State, r: State, price: Price, maker: OrderId)
    requires r.limits.Keys <= m.limits.Keys && (forall i <- r.limits :: r.limits[i].price == m.limits[i].price)
    requires maker !in r.limits
    ensures Crossing(r, price).Keys <= Crossing(m, price).Keys && maker !in Crossing(r, price)
  {
    hide AtLeast;
  }

  /** Filling changes no price and creates no order. */
  lemma FilledPrices(m: State, id: OrderId, pays: nat, receives: nat, cull: bool)
    requires Inv(m) && id in m.limits && pays <= m.limits[id].forSale
    ensures var o := m.limits[id]; ValidPrice(o.price) && ValidAsset(m, o.price.quote)
    ensures var r := FillLimit(m, id, pays, receives, cull);
      && r.limits.Keys <= m.limits.Keys && r.assets.Keys == m.assets.Keys
      && (forall i <- r.limits :: r.limits[i].price == m.limits[i].price)
      && (forall i <- m.limits :: i != id ==> i in r.limits && r.limits[i] == m.limits[i])
      && (pays == m.limits[id].forSale ==> id !in r.limits)
  {
    hide Net, FillLimit;
    assert ValidLimit(m, m.limits[id]);
    assert ValidAsset(m, m.limits[id].price.quote);
    FillLimitFlow(m, id, pays, receives, cull, 0);
    var r := FillLimit(m, id, pays, receives, cull);
    forall i | i != id ensures (i in r.limits <==> i in m.limits) && (i in m.limits ==> r.limits[i] == m.limits[i]) {
      assert i in r.limits - {id} <==> i in m.limits - {id};
    }
  }

  lemma SupplyNotNegative(m: State, mia: AssetId)
    requires Inv(m) && Unsettled(m, mia)
    ensures m.assets[mia].supply >= 0
  {
    SumAtLeast(m.calls, 0, DebtIn(mia));
  }

  lemma FromBaseMonotone(a: nat, b: nat, p: Price)
    requires p.baseAmount > 0 && a <= b
    ensures FromBase(a, p) <= FromBase(b, p)
  {
    MulMono(a, b, p.quoteAmount);
    DivMono(a * p.quoteAmount, b * p.quoteAmount, p.baseAmount);
  }

  lemma LimitFacts(m: State, id: OrderId)
    requires Inv(m) && id in m.limits
    ensures var o := m.limits[id];
      ValidLimit(m, o) && ValidPrice(o.price) && o.price.base in m.assets && o.price.quote in m.assets &&
      o.forSale > 0 &&
      ValidAsset(m, o.price.quote)
  {
    hide Covered;
    assert ValidLimit(m, m.limits[id]);
    assert ValidAsset(m, m.limits[id].price.quote);
  }

  lemma CallFacts(m: State, id: OrderId)
    requires Inv(m) && id in m.calls
    ensures ValidCall(m, m.calls[id])
  {
    hide Covered;
  }

  lemma AssetFacts(m: State, x: AssetId)
    requires Inv(m) && x in m.assets
    ensures ValidAsset(m, x)
  {
    hide Covered;
  }

  /** Half-way through a settlement: `gathered` has left the positions, and the burnt debt has left the supply. */
  ghost predicate Settling(m0: State, m: State, mia: AssetId, gathered: nat, supply: nat) {
    && Inv(m) && Unsettled(m, mia) && Unsettled(m0, mia)
    && m.assets[mia].bit.value == m0.assets[mia].bit.value
    && m.assets.Keys == m0.assets.Keys && m.limits == m0.limits && m.settles == m0.settles
    && forall y :: Net(m, y) == Net(m0, y) - (if y == m0.assets[mia].bit.value.backing then gathered else 0)
                                  + (if y == mia then supply - m.assets[mia].supply else 0)
  }

  /** What closing a position at `price` takes from its collateral. */
  function Taken(o: CallOrder, price: Price): nat
    requires price.baseAmount > 0
  {
    var due := FromBase(o.debt, price);
    if due <= o.collateral then due else o.collateral
  }

  lemma TakenIs(o: CallOrder, price: Price)
    requires price.baseAmount > 0
    ensures Taken(o, price) == if FromBase(o.debt, price) > o.collateral then o.collateral else FromBase(o.debt, price)
  {
  }

  ghost function TakenIn(mia: AssetId, price: Price): (OrderId, CallOrder) -> int
    requires price.baseAmount > 0
  {
    (id, o: CallOrder) => if o.price.quote == mia then Taken(o, price) else 0
  }

  lemma {:induction false} NothingTaken(m: State, mia: AssetId, price: Price)
    requires price.baseAmount > 0 && Positions(m, mia) == map[]
    ensures Sum(m.calls, TakenIn(mia, price)) == 0
  {
    forall i | i in m.calls ensures m.calls[i].price.quote != mia {
      assert i !in Positions(m, mia);
    }
    SumZero(m.calls, TakenIn(mia, price));
  }

  /** Closing one position moves its share of the collateral into the pot and burns its debt. */
  lemma ClosePosition(m0: State, m: State, mia: AssetId, id: OrderId, pays: nat, gathered: nat, supply: nat)
    requires Settling(m0, m, mia, gathered, supply)
    requires id in m.calls && m.calls[id].price.quote == mia && pays <= m.calls[id].collateral
    ensures var r := FillCall(m, id, pays, m.calls[id].debt);
      Settling(m0, r, mia, gathered + pays, supply) && r.calls == m.calls - {id}
  {
    hide Net, Debt, Inv, FillCall;
    var o := m.calls[id];
    CallFacts(m, id);
    FillCallInv(m, id, pays, o.debt);
    FillCallShape(m, id, pays, o.debt);
    var r := FillCall(m, id, pays, o.debt);
    assert r.calls == r.calls - {id};
    forall y ensures Net(r, y) == Net(m0, y) - (if y == o.price.base then gathered + pays else 0)
                                   + (if y == mia then supply - r.assets[mia].supply else 0)
    {
      FillCallFlow(m, id, pays, o.debt, y);
    }
  }

  lemma SettlingStarts(m: State, mia: AssetId, supply: nat)
    requires Inv(m) && Unsettled(m, mia) && m.assets[mia].supply == supply
    ensures Settling(m, m, mia, 0, supply)
  {
    hide Net;
  }

  lemma SettlingFacts(m0: State, m: State, mia: AssetId, gathered: nat, supply: nat)
    requires Settling(m0, m, mia, gathered, supply)
    ensures Inv(m) && Unsettled(m, mia) && forall i <- Positions(m, mia) :: ValidCall(m, m.calls[i]) && mia in m.assets
  {
    hide Net, Covered;
    forall i | i in Positions(m, mia) ensures ValidCall(m, m.calls[i]) {}
  }

  ghost function FreedIn(mia: AssetId, price: Price, a: AccountId, y: AssetId): (OrderId, CallOrder) -> int
    requires price.baseAmount > 0
  {
    (id, o: CallOrder) =>
      if o.price.quote == mia && o.borrower == a && o.price.base == y then o.collateral - Taken(o, price) else 0
  }

  /** Half-way through a settlement, position by position: the closed ones are gone and their borrowers have what was
      left of the collateral; everything else is as it was. */
  ghost predicate Closing(m0: State, m: State, mia: AssetId, price: Price) {
    && price.baseAmount > 0 && mia in m0.assets
    && m.limits == m0.limits && m.settles == m0.settles && m.pendingFees == m0.pendingFees
    && mia in m.assets && m.assets == m0.assets[mia := m0.assets[mia].(supply := m.assets[mia].supply)]
    && (forall i <- m.calls :: i in m0.calls && m.calls[i] == m0.calls[i])
    && (forall i <- m0.calls :: m0.calls[i].price.quote != mia ==> i in m.calls)
    && (forall a, y :: Holding(m, a, y) + Sum(m.calls, FreedIn(mia, price, a, y)) ==
                       Holding(m0, a, y) + Sum(m0.calls, FreedIn(mia, price, a, y)))
  }

  lemma ClosingStarts(m: State, mia: AssetId, price: Price)
    requires price.baseAmount > 0 && mia in m.assets
    ensures Closing(m, m, mia, price)
  {
    hide Sum;
  }

  lemma ClosesOne(m0: State, m: State, mia: AssetId, price: Price, id: OrderId)
    requires Closing(m0, m, mia, price) && id in m.calls && m.calls[id].price.quote == mia
    ensures Taken(m.calls[id], price) <= m.calls[id].collateral
    ensures Closing(m0, FillCall(m, id, Taken(m.calls[id], price), m.calls[id].debt), mia, price)
  {
    hide Sum, Taken, FillCall, Holding;
    var o := m.calls[id];
    assert Taken(o, price) <= o.collateral by { TakenIs(o, price); }
    var r := FillCall(m, id, Taken(o, price), o.debt);
    FillCallShape(m, id, Taken(o, price), o.debt);
    assert r.calls == m.calls - {id} by { assert r.calls == r.calls - {id}; }
    forall a, y ensures Holding(r, a, y) + Sum(r.calls, FreedIn(mia, price, a, y)) ==
      Holding(m0, a, y) + Sum(m0.calls, FreedIn(mia, price, a, y))
    {
      FillCallPays(m, id, Taken(o, price), o.debt, a, y);
      SumRemove(m.calls, id, FreedIn(mia, price, a, y));
    }
    FillCallPays(m, id, Taken(o, price), o.debt, 0, 0);
  }

  /** A global settlement in full: every position in `mia` is closed at `price` as far as its collateral goes, the
      borrowers get what is left, and the fund holds what was taken, to redeem the whole supply from. */
  ghost predicate SettledGlobally(m0: State, m: State, mia: AssetId, price: Price) {
    && price.baseAmount > 0 && Unsettled(m0, mia) && m0.assets[mia].supply >= 0
    && m.limits == m0.limits && m.settles == m0.settles && m.pendingFees == m0.pendingFees
    && m.calls == (map i | i in m0.calls && m0.calls[i].price.quote != mia :: m0.calls[i])
    && (forall a, y :: Holding(m, a, y) == Holding(m0, a, y) + Sum(m0.calls, FreedIn(mia, price, a, y)))
    && var fund := Sum(m0.calls, TakenIn(mia, price));
    && fund >= 0 && m.assets == WithFund(m0, mia, m0.assets[mia].supply, fund).assets
  }

  lemma ClosedAll(m0: State, m: State, mia: AssetId, price: Price, supply: nat, gathered: nat)
    requires Closing(m0, m, mia, price) && Unsettled(m0, mia) && m0.assets[mia].supply == supply
    requires Positions(m, mia) == map[] && gathered == Sum(m0.calls, TakenIn(mia, price)) && m.assets[mia].bit.Some?
    ensures SettledGlobally(m0, WithFund(m, mia, supply, gathered), mia, price)
  {
    hide Sum, Taken, Holding;
    var r := WithFund(m, mia, supply, gathered);
    forall i | i in m.calls ensures m.calls[i].price.quote != mia { assert i !in Positions(m, mia); }
    forall a, y ensures Holding(r, a, y) == Holding(m0, a, y) + Sum(m0.calls, FreedIn(mia, price, a, y)) {
      SumZero(m.calls, FreedIn(mia, price, a, y));
      SameHolding(m, r, a, y);
    }
  }

  function WithFund(m: State, mia: AssetId, supply: nat, gathered: nat): State
    requires mia in m.assets && m.assets[mia].bit.Some?
  {
    var b := m.assets[mia].bit.value;
    m.(assets := m.assets[mia := m.assets[mia].(
      supply := supply,
      bit := Some(b.(settlement := Some(Price(mia, supply, b.backing, gathered)), fund := gathered)))])
  }

  lemma WithFundNet(m: State, mia: AssetId, supply: nat, gathered: nat, y: AssetId)
    requires mia in m.assets && m.assets[mia].bit.Some? && m.assets[mia].bit.value.fund == 0
    ensures Net(WithFund(m, mia, supply, gathered), y) ==
      Net(m, y) + (if y == m.assets[mia].bit.value.backing then gathered else 0)
                - (if y == mia then supply - m.assets[mia].supply else 0)
  {
    var a' := WithFund(m, mia, supply, gathered).assets[mia];
    SumUpdate(m.assets, mia, a', FundIn(y));
    SumUpdate(m.assets, mia, a', IssuedIn(y));
  }

  lemma WithFundInv(m: State, mia: AssetId, supply: nat, gathered: nat)
    requires Inv(m) && Unsettled(m, mia)
    ensures Inv(WithFund(m, mia, supply, gathered))
  {
    var r := WithFund(m, mia, supply, gathered);
    assert ValidAsset(m, mia);
    forall x | x in r.assets ensures ValidAsset(r, x) { assert ValidAsset(m, x); }
    forall i | i in r.limits ensures ValidLimit(r, r.limits[i]) { assert ValidLimit(m, m.limits[i]); }
    forall i | i in r.calls ensures ValidCall(r, r.calls[i]) { assert ValidCall(m, m.calls[i]); }
    forall i | i in r.settles ensures ValidSettle(r, r.settles[i]) { assert ValidSettle(m, m.settles[i]); }
  }

  /** Fixing fund, price and supply completes the settlement: nothing was created or lost. */
  lemma Settled(m0: State, m: State, mia: AssetId, gathered: nat, supply: nat)
    requires Settling(m0, m, mia, gathered, supply)
    ensures Inv(WithFund(m, mia, supply, gathered)) && Conserves(m0, WithFund(m, mia, supply, gathered))
    ensures m.assets.Keys == m0.assets.Keys && m.limits == m0.limits && m.settles == m0.settles
  {
    hide Net, Inv;
    WithFundInv(m, mia, supply, gathered);
    AssetFacts(m, mia);
    forall y ensures Net(WithFund(m, mia, supply, gathered), y) == Net(m0, y) {
      WithFundNet(m, mia, supply, gathered, y);
    }
  }

  /** A margin call: the position buys `amount` from the order at the order's price. */
  ghost predicate Callable(m: State, mia: AssetId, id: OrderId, bid: OrderId, amount: nat) {
    && Unsettled(m, mia) && id in m.calls && bid in m.limits
    && m.calls[id].price.quote == mia == m.limits[bid].price.base
    && m.calls[id].price.base == m.limits[bid].price.quote == m.assets[mia].bit.value.backing
    && amount <= m.calls[id].debt && amount <= m.limits[bid].forSale
    && ValidPrice(m.limits[bid].price) && FromBase(amount, m.limits[bid].price) <= m.calls[id].collateral
  }

  lemma CallableSmaller(m: State, mia: AssetId, id: OrderId, bid: OrderId)
    requires Inv(m) && Unsettled(m, mia) && id in Positions(m, mia) && bid in m.limits
    requires m.limits[bid].price.base == mia && m.limits[bid].price.quote == m.assets[mia].bit.value.backing
    ensures Callable(m, mia, id, bid, 0)
  {
    CallFacts(m, id);
    LimitFacts(m, bid);
  }

  /** After the position's half the order stands as before. */
  lemma PositionFilled(m: State, mia: AssetId, id: OrderId, bid: OrderId, amount: nat)
    requires Inv(m) && Callable(m, mia, id, bid, amount)
    ensures var m1 := FillCall(m, id, FromBase(amount, m.limits[bid].price), amount);
      && Inv(m1) && SameRules(m, m1) && m1.limits == m.limits
      && Positions(m1, mia).Keys == Positions(m, mia).Keys - (if amount == m.calls[id].debt then {id} else {})
  {
    hide Inv, Net, Debt, SameRules, FillCall;
    var pays := FromBase(amount, m.limits[bid].price);
    FillCallInv(m, id, pays, amount);
    FillCallShape(m, id, pays, amount);
    CallsLeft(m, FillCall(m, id, pays, amount), mia, id);
  }

  lemma MarginCall(m: State, mia: AssetId, id: OrderId, bid: OrderId, amount: nat)
    requires Inv(m) && Callable(m, mia, id, bid, amount)
    ensures var pays := FromBase(amount, m.limits[bid].price); var m1 := FillCall(m, id, pays, amount);
      && m1.limits == m.limits && ValidAsset(m1, m1.limits[bid].price.quote)
      && var r := FillLimit(m1, bid, amount, pays, true);
      && Inv(r) && Conserves(m, r) && SameRules(m, r)
      && r.limits.Keys <= m.limits.Keys && (forall i <- r.limits :: r.limits[i].price == m.limits[i].price)
      && (amount == m.limits[bid].forSale ==> bid !in r.limits)
      && Positions(r, mia).Keys == Positions(m, mia).Keys - (if amount == m.calls[id].debt then {id} else {})
  {
    hide Inv, Net, Conserves, FromBase, FillLimit, FillCall;
    var pays := FromBase(amount, m.limits[bid].price);
    PositionFilled(m, mia, id, bid, amount);
    var m1 := FillCall(m, id, pays, amount);
    FilledPrices(m1, bid, amount, pays, true);
    FillLimitInv(m1, bid, amount, pays, true);
    MarginCallNet(m, id, bid, amount);
  }

  /** The book after a margin call: the smaller of debt and offer changes hands at the order's price. */
  ghost function Called(m: State, mia: AssetId, id: OrderId, bid: OrderId): State
    requires Inv(m) && Callable(m, mia, id, bid, 0)
    requires FromBase(m.calls[id].debt, m.limits[bid].price) <= m.calls[id].collateral
  {
    var amount := if m.calls[id].debt <= m.limits[bid].forSale then m.calls[id].debt else m.limits[bid].forSale;
    FromBaseMonotone(amount, m.calls[id].debt, m.limits[bid].price);
    MarginCall(m, mia, id, bid, amount);
    CallFacts(m, id);
    var pays := FromBase(amount, m.limits[bid].price);
    FillLimit(FillCall(m, id, pays, amount), bid, amount, pays, true)
  }

  lemma MarginCallNet(m: State, id: OrderId, bid: OrderId, amount: nat)
    requires Inv(m) && id in m.calls && bid in m.limits
    requires m.calls[id].price.quote == m.limits[bid].price.base && m.calls[id].price.base == m.limits[bid].price.quote
    requires amount <= m.calls[id].debt && amount <= m.limits[bid].forSale
    requires ValidPrice(m.limits[bid].price) && FromBase(amount, m.limits[bid].price) <= m.calls[id].collateral
    ensures var pays := FromBase(amount, m.limits[bid].price);
      && m.calls[id].price.quote in m.assets
      && var m1 := FillCall(m, id, pays, amount);
      && bid in m1.limits && m1.limits[bid] == m.limits[bid] && ValidAsset(m1, m1.limits[bid].price.quote)
      && Conserves(m, FillLimit(m1, bid, amount, pays, true))
  {
    hide Net, Debt, Covered, FromBase, FillLimit, FillCall, OnlyLimit, SameRules;
    var pays := FromBase(amount, m.limits[bid].price);
    assert ValidCall(m, m.calls[id]);
    FillCallInv(m, id, pays, amount);
    FillCallShape(m, id, pays, amount);
    var m1 := FillCall(m, id, pays, amount);
    assert ValidAsset(m1, m1.limits[bid].price.quote);
    forall y ensures Net(FillLimit(m1, bid, amount, pays, true), y) == Net(m, y) {
      FillCallFlow(m, id, pays, amount, y);
      FillLimitFlow(m1, bid, amount, pays, true, y);
    }
  }

  /** What account `a` gets of asset y in a margin call of `amount`: the bid's seller the collateral it is paid
      with, less the issuer's fee, and the rest of an order that is too small; the borrower the collateral that is
      left once the debt is covered. */
  ghost function CallGain(m: State, id: OrderId, bid: OrderId, amount: nat, pays: nat, a: AccountId, y: AssetId): nat
    requires id in m.calls && bid in m.limits && ValidPrice(m.limits[bid].price)
    requires ValidAsset(m, m.limits[bid].price.quote)
    requires pays <= m.calls[id].collateral && amount <= m.limits[bid].forSale
  {
    var o, p := m.calls[id], m.limits[bid];
    (if a == p.seller && y == p.price.quote then Proceeds(m, p.price.quote, pays) else 0)
    + (if a == p.seller && y == p.price.base then Rest(p, amount) else 0)
    + (if amount == o.debt && a == o.borrower && y == o.price.base then o.collateral - pays else 0)
  }

  /** A margin call in full: the smaller of debt and offer changes hands, and who is paid what. */
  ghost predicate CallPaid(m: State, mia: AssetId, id: OrderId, bid: OrderId, amount: nat, pays: nat, r: State)
    requires Inv(m) && Callable(m, mia, id, bid, amount) && pays == FromBase(amount, m.limits[bid].price)
  {
    LimitFacts(m, bid);
    var o, p := m.calls[id], m.limits[bid];
    && (id in r.calls <==> amount < o.debt)
    && (id in r.calls ==> r.calls[id] == o.(debt := o.debt - amount, collateral := o.collateral - pays))
    && (bid in r.limits <==> amount < p.forSale && Rest(p, amount) == 0)
    && (bid in r.limits ==> r.limits[bid] == p.(forSale := p.forSale - amount, deferredFee := 0))
    && r.calls - {id} == m.calls - {id} && r.limits - {bid} == m.limits - {bid} && r.settles == m.settles
    && (forall a, y :: Holding(r, a, y) == Holding(m, a, y) + CallGain(m, id, bid, amount, pays, a, y))
    && (forall a :: Owed(r, a) == Owed(m, a) + (if a == p.seller then p.deferredFee else 0))
    && mia in r.assets && r.assets[mia].supply == m.assets[mia].supply - amount
  }

  lemma CallPays(m: State, mia: AssetId, id: OrderId, bid: OrderId)
    requires Inv(m) && Callable(m, mia, id, bid, 0)
    requires FromBase(m.calls[id].debt, m.limits[bid].price) <= m.calls[id].collateral
    ensures var amount := if m.calls[id].debt <= m.limits[bid].forSale then m.calls[id].debt else m.limits[bid].forSale;
      var pays := FromBase(amount, m.limits[bid].price);
      && Callable(m, mia, id, bid, amount)
      && CallPaid(m, mia, id, bid, amount, pays, Called(m, mia, id, bid))
  {
    hide Inv, FillCall, FillLimit, Holding, Owed, Proceeds, MarketFee, FromBase, CallGain, SameRules, Conserves,
         OnlyCall;
    var amount := if m.calls[id].debt <= m.limits[bid].forSale then m.calls[id].debt else m.limits[bid].forSale;
    var pays := FromBase(amount, m.limits[bid].price);
    FromBaseMonotone(amount, m.calls[id].debt, m.limits[bid].price);
    MarginCall(m, mia, id, bid, amount);
    CallFacts(m, id);
    LimitFacts(m, bid);
    CallHalves(m, mia, id, bid, amount, pays);
    var r := Called(m, mia, id, bid);
    forall a, y ensures Holding(r, a, y) == Holding(m, a, y) + CallGain(m, id, bid, amount, pays, a, y) {
      CallHalvesPay(m, mia, id, bid, amount, pays, a, y);
    }
    forall a ensures Owed(r, a) == Owed(m, a) + (if a == m.limits[bid].seller then m.limits[bid].deferredFee else 0) {
      CallHalvesPay(m, mia, id, bid, amount, pays, a, 0);
    }
  }

  /** The orders and the supply in the two halves of a margin call. */
  lemma CallHalves(m: State, mia: AssetId, id: OrderId, bid: OrderId, amount: nat, pays: nat)
    requires Inv(m) && Callable(m, mia, id, bid, amount) && pays == FromBase(amount, m.limits[bid].price)
    ensures m.calls[id].price.quote in m.assets
    ensures var m1 := FillCall(m, id, pays, amount); var o, p := m.calls[id], m.limits[bid];
      && m1.limits == m.limits && ValidAsset(m1, p.price.quote)
      && var r := FillLimit(m1, bid, amount, pays, true);
      && (id in r.calls <==> amount < o.debt)
      && (id in r.calls ==> r.calls[id] == o.(debt := o.debt - amount, collateral := o.collateral - pays))
      && (bid in r.limits <==> amount < p.forSale && Rest(p, amount) == 0)
      && (bid in r.limits ==> r.limits[bid] == p.(forSale := p.forSale - amount, deferredFee := 0))
      && r.calls - {id} == m.calls - {id} && r.limits - {bid} == m.limits - {bid} && r.settles == m.settles
      && mia in r.assets && r.assets[mia].supply == m.assets[mia].supply - amount
  {
    hide Inv, FillCall, FillLimit, Proceeds, MarketFee, FromBase, SameRules, Conserves;
    MarginCall(m, mia, id, bid, amount);
    CallFacts(m, id);
    FillCallShape(m, id, pays, amount);
    var m1 := FillCall(m, id, pays, amount);
    FillCallPays(m, id, pays, amount, 0, 0);
    FillLimitFlow(m1, bid, amount, pays, true, 0);
    FillLimitPays(m1, bid, amount, pays, true, 0, 0);
  }

  lemma CallHalvesPay(m: State, mia: AssetId, id: OrderId, bid: OrderId, amount: nat, pays: nat, a: AccountId,
                      y: AssetId)
    requires Inv(m) && Callable(m, mia, id, bid, amount) && pays == FromBase(amount, m.limits[bid].price)
    ensures m.calls[id].price.quote in m.assets && ValidAsset(m, m.limits[bid].price.quote)
    ensures var m1 := FillCall(m, id, pays, amount);
      && m1.limits == m.limits && ValidAsset(m1, m.limits[bid].price.quote)
      && var r := FillLimit(m1, bid, amount, pays, true);
      && Holding(r, a, y) == Holding(m, a, y) + CallGain(m, id, bid, amount, pays, a, y)
      && Owed(r, a) == Owed(m, a) + (if a == m.limits[bid].seller then m.limits[bid].deferredFee else 0)
  {
    hide Inv, FillCall, FillLimit, Proceeds, MarketFee, FromBase, Conserves, Holding, Owed;
    MarginCall(m, mia, id, bid, amount);
    CallFacts(m, id);
    LimitFacts(m, bid);
    PositionFilled(m, mia, id, bid, amount);
    var m1 := FillCall(m, id, pays, amount);
    FillCallPays(m, id, pays, amount, a, y);
    SameOwed(m, m1, a);
    FillLimitPays(m1, bid, amount, pays, true, a, y);
    SameProceeds(m, m1, m.limits[bid].price.quote, pays);
  }

  lemma SameProceeds(m: State, r: State, x: AssetId, amount: nat)
    requires ValidAsset(m, x) && ValidAsset(r, x) && SameRules(m, r)
    ensures Proceeds(r, x, amount) == Proceeds(m, x, amount)
  {
  }

  lemma CancelKeepsInv(m: State, id: OrderId)
    requires Inv(m) && id in m.limits
    ensures Inv(CancelLimit(m, id)) && Conserves(m, CancelLimit(m, id)) && id !in CancelLimit(m, id).limits
  {
    hide Net, CancelLimit;
    var r := CancelLimit(m, id);
    forall y ensures Net(r, y) == Net(m, y) { CancelLimitNet(m, id, y); }
    CancelLimitNet(m, id, 0);
    LimitChangeInv(m, r, id);
  }

  lemma CallsLeft(m: State, r: State, mia: AssetId, id: OrderId)
    requires id in m.calls && m.calls[id].price.quote == mia && r.calls - {id} == m.calls - {id}
    requires id in r.calls ==> r.calls[id].price == m.calls[id].price
    ensures Positions(r, mia).Keys == Positions(m, mia).Keys - (if id in r.calls then {} else {id})
  {
    forall i | i != id ensures (i in r.calls <==> i in m.calls) && (i in m.calls ==> r.calls[i] == m.calls[i]) {
      assert i in r.calls - {id} <==> i in m.calls - {id};
    }
  }

  lemma StaysUncrossed(before: State, after: State, price: Price)
    requires Crossing(before, price) == map[] && Traded(before, after)
    ensures Crossing(after, price) == map[]
  {
    forall i ensures i !in Crossing(after, price) {
      assert i !in Crossing(before, price);
    }
  }

  // ----- black swans and margin calls in full

  /** A black swan has settled the asset at the price of its position with the lowest call price. */
  ghost predicate SwanSettled(m0: State, m: State, mia: AssetId) {
    && BlackSwan(m0, mia)
    && exists id :: IsBest(Positions(m0, mia), id) && SettledGlobally(m0, m, mia, m0.calls[id].SwanPrice())
  }

  /** Where the loop over margin calls stands: the bids it has passed, and whether it has ever filled one. */
  datatype Round = Round(m: State, passed: set<OrderId>, filled: bool)

  /** A margin call is due: the position with the lowest call price is called by the feed and by the best bid that has
      not been passed. */
  ghost predicate Due(r: Round, mia: AssetId, b: BitAsset, id: OrderId, bid: OrderId) {
    && b.feed.Some?
    && IsBest(Positions(r.m, mia), id) && id in r.m.calls
    && IsBest(Bids(r.m, mia, b.backing, b.squeeze, r.passed), bid) && bid in r.m.limits
    && AtLeast(r.m.calls[id].price.Inverse(), b.feed.value)
    && AtLeast(r.m.calls[id].price.Inverse(), r.m.limits[bid].price)
  }

  /** The collateral pays for the whole debt at the price of the bid. */
  predicate Payable(m: State, id: OrderId, bid: OrderId) {
    && id in m.calls && bid in m.limits && m.limits[bid].price.baseAmount > 0
    && FromBase(m.calls[id].debt, m.limits[bid].price) <= m.calls[id].collateral
  }

  /** One margin call. From the first filled bid on, every bid is passed once it has been called on. */
  ghost predicate CallStep(mia: AssetId, b: BitAsset, r: Round, id: OrderId, bid: OrderId, r': Round) {
    && Inv(r.m) && Callable(r.m, mia, id, bid, 0) && Due(r, mia, b, id, bid) && Payable(r.m, id, bid)
    && !BlackSwan(r.m, mia)
    && var filled := r.filled || r.m.calls[id].debt >= r.m.limits[bid].forSale;
    r' == Round(Called(r.m, mia, id, bid), if filled then r.passed + {bid} else r.passed, filled)
  }

  ghost predicate CallRun(mia: AssetId, b: BitAsset, rounds: seq<Round>, calls: seq<(OrderId, OrderId)>) {
    && |rounds| == |calls| + 1
    && forall i :: 0 <= i < |calls| ==> CallStep(mia, b, rounds[i], calls[i].0, calls[i].1, rounds[i + 1])
  }

  /** How the loop ends after its last round: with a black swan, because no further call is due, or because the one that
      is due takes more than the collateral. */
  ghost predicate LoopEnds(mia: AssetId, b: BitAsset, last: Round, called: bool, enable: bool, r: Outcome, m: State) {
    if BlackSwan(last.m, mia) then
      if enable then r == Done(called) && SwanSettled(last.m, m, mia) else r.Thrown? && m == last.m
    else if forall id, bid :: !Due(last, mia, b, id, bid) then
      r == Done(called) && m == last.m
    else
      exists id, bid :: Due(last, mia, b, id, bid) && TooDear(mia, b, last.m, id, bid, enable, r, m)
  }

  ghost predicate TooDear(mia: AssetId, b: BitAsset, m0: State, id: OrderId, bid: OrderId, enable: bool,
                          r: Outcome, m: State) {
    && !Payable(m0, id, bid) && b.feed.Some?
    && if enable then r == Done(true) && SettledGlobally(m0, m, mia, b.feed.value) else r.Thrown? && m == m0
  }

  ghost predicate LoopRuns(mia: AssetId, b: BitAsset, m0: State, rounds: seq<Round>, calls: seq<(OrderId, OrderId)>,
                           enable: bool, r: Outcome, m: State) {
    && CallRun(mia, b, rounds, calls) && rounds[0] == Round(m0, {}, false)
    && LoopEnds(mia, b, rounds[|calls|], calls != [], enable, r, m)
  }

  /** What checking an asset for margin calls does, in full. */
  ghost predicate CallsChecked(m0: State, mia: AssetId, enable: bool, r: Outcome, m: State)
    requires mia in m0.assets
  {
    if m0.assets[mia].bit.None? || !Unsettled(m0, mia) then r == Done(false) && m == m0
    else if BlackSwan(m0, mia) then
      if enable then r == Done(false) && SwanSettled(m0, m, mia) else r.Thrown? && m == m0
    else
      var b := m0.assets[mia].bit.value;
      if b.prediction || b.feed.None? || Bids(m0, mia, b.backing, b.squeeze, {}) == map[] then
        r == Done(false) && m == m0
      else
        exists rounds, calls :: LoopRuns(mia, b, m0, rounds, calls, enable, r, m)
  }

  /** The rounds so far, and where they have led. */
  ghost predicate Calling(mia: AssetId, b: BitAsset, m0: State, rounds: seq<Round>, calls: seq<(OrderId, OrderId)>,
                          r: Round, called: bool) {
    && CallRun(mia, b, rounds, calls) && rounds[0] == Round(m0, {}, false)
    && rounds[|calls|] == r && called == (calls != [])
  }

  lemma CallingStarts(mia: AssetId, b: BitAsset, m: State)
    ensures Calling(mia, b, m, [Round(m, {}, false)], [], Round(m, {}, false), false)
  {
    hide CallStep;
  }

  lemma CallingOn(mia: AssetId, b: BitAsset, m0: State, rounds: seq<Round>, calls: seq<(OrderId, OrderId)>,
                  r: Round, called: bool, id: OrderId, bid: OrderId, r': Round)
    requires Calling(mia, b, m0, rounds, calls, r, called)
    requires Inv(r.m) && Callable(r.m, mia, id, bid, 0) && Due(r, mia, b, id, bid) && Payable(r.m, id, bid)
    requires !BlackSwan(r.m, mia) && r'.m == Called(r.m, mia, id, bid)
    requires r'.filled == (r.filled || r.m.calls[id].debt >= r.m.limits[bid].forSale)
    requires r'.passed == if r'.filled then r.passed + {bid} else r.passed
    ensures Calling(mia, b, m0, rounds + [r'], calls + [(id, bid)], r', true)
  {
    hide Inv, Callable, Due, BlackSwan, Called, FromBase, CallStep;
    CallStepIs(mia, b, r, id, bid, r');
  }

  lemma LoopIsDone(mia: AssetId, b: BitAsset, m0: State, rounds: seq<Round>, calls: seq<(OrderId, OrderId)>,
                   last: Round, called: bool, enable: bool, r: Outcome, m: State)
    requires Calling(mia, b, m0, rounds, calls, last, called) && LoopEnds(mia, b, last, called, enable, r, m)
    ensures LoopRuns(mia, b, m0, rounds, calls, enable, r, m)
  {
    hide CallStep, LoopEnds;
  }

  /** Without a call no limit order changes, and it throws only where black swans are not allowed. */
  lemma LoopMeans(mia: AssetId, b: BitAsset, m0: State, enable: bool, r: Outcome, m: State)
    requires exists rounds, calls :: LoopRuns(mia, b, m0, rounds, calls, enable, r, m)
    ensures r == Done(false) ==> m.limits == m0.limits
    ensures r.Thrown? ==> !enable
  {
    hide CallStep, BlackSwan, Due, Payable;
    var rounds, calls :| LoopRuns(mia, b, m0, rounds, calls, enable, r, m);
  }

  /** Only positions that are due change: one whose inverse call price is below the feed stays untouched, as long as the
      asset is not settled, and so does every position in another asset. */
  lemma SafePositionsStay(m0: State, mia: AssetId, enable: bool, r: Outcome, m: State, i: OrderId)
    requires Inv(m0) && mia in m0.assets && CallsChecked(m0, mia, enable, r, m) && Unsettled(m, mia)
    requires i in m0.calls
    requires m0.calls[i].price.quote == mia && m0.assets[mia].bit.Some? && m0.assets[mia].bit.value.feed.Some? ==>
      !AtLeast(m0.calls[i].price.Inverse(), m0.assets[mia].bit.value.feed.value)
    ensures i in m.calls && m.calls[i] == m0.calls[i]
  {
    hide Inv, BlackSwan, AtLeast, IsBest, LoopRuns, SettledGlobally;
    if m != m0 {
      var b := m0.assets[mia].bit.value;
      SwanSettles(m0, m, mia);
      var rounds, calls :| LoopRuns(mia, b, m0, rounds, calls, enable, r, m);
      LoopLeaves(mia, b, m0, rounds, calls, enable, r, m);
      RoundsLeave(mia, b, rounds, calls, |calls|, i);
    }
  }

  lemma SwanSettles(m0: State, m: State, mia: AssetId)
    ensures SwanSettled(m0, m, mia) ==> !Unsettled(m, mia)
    ensures forall price :: SettledGlobally(m0, m, mia, price) ==> !Unsettled(m, mia)
  {
    hide Sum, BlackSwan, IsBest;
  }

  /** Every call is of the position with the lowest call price in the asset, on the best bid not passed yet that
      sells the asset at the squeeze price or better; and both the feed and that bid call it. */
  lemma CallsAreDue(mia: AssetId, b: BitAsset, r: Round, id: OrderId, bid: OrderId, r': Round, i: OrderId, j: OrderId)
    requires CallStep(mia, b, r, id, bid, r')
    ensures b.feed.Some? && id in r.m.calls && r.m.calls[id].price.quote == mia
    ensures AtLeast(r.m.calls[id].price.Inverse(), b.feed.value)
    ensures AtLeast(r.m.calls[id].price.Inverse(), r.m.limits[bid].price)
    ensures SellsAt(r.m, bid, mia, b) && bid !in r.passed
    ensures i in r.m.calls && r.m.calls[i].price.quote == mia ==>
      AtLeast(r.m.calls[id].price.Inverse(), r.m.calls[i].price.Inverse())
    ensures SellsAt(r.m, j, mia, b) && j !in r.passed ==> AtLeast(r.m.limits[bid].price, r.m.limits[j].price)
  {
    hide Inv, AtLeast, Called, BlackSwan, Callable, Payable;
    if i in Positions(r.m, mia) {
      BestIsHighest(Positions(r.m, mia), id, i);
    }
    if j in Bids(r.m, mia, b.backing, b.squeeze, r.passed) {
      BestIsHighest(Bids(r.m, mia, b.backing, b.squeeze, r.passed), bid, j);
    }
  }

  /** The order sells the asset for its backing asset, at the squeeze price or better. */
  predicate SellsAt(m: State, i: OrderId, mia: AssetId, b: BitAsset) {
    && i in m.limits && m.limits[i].price.base == mia && m.limits[i].price.quote == b.backing
    && AtLeast(m.limits[i].price, b.squeeze)
  }

  /** No call is due: there is no position, or no bid that has not been passed, or the position with the lowest call
      price is not called by the feed or not by the best bid. */
  lemma NothingDueMeans(r: Round, mia: AssetId, b: BitAsset)
    requires Inv(r.m) && b.feed.Some?
    ensures (forall id, bid :: !Due(r, mia, b, id, bid)) <==>
      || (forall i <- r.m.calls :: r.m.calls[i].price.quote != mia)
      || (forall i <- r.m.limits :: SellsAt(r.m, i, mia, b) ==> i in r.passed)
      || exists id, bid ::
           && IsBest(Positions(r.m, mia), id) && IsBest(Bids(r.m, mia, b.backing, b.squeeze, r.passed), bid)
           && !(AtLeast(r.m.calls[id].price.Inverse(), b.feed.value)
                && AtLeast(r.m.calls[id].price.Inverse(), r.m.limits[bid].price))
  {
    hide Inv, AtLeast, IsBest;
    var positions, bids := Positions(r.m, mia), Bids(r.m, mia, b.backing, b.squeeze, r.passed);
    PositionsPositive(r.m, mia);
    BidsPositive(r.m, mia, b.backing, b.squeeze, r.passed);
    if positions == map[] || bids == map[] {
      NobodyDue(r, mia, b);
      forall i | i in r.m.calls && positions == map[] ensures r.m.calls[i].price.quote != mia {
        assert i !in positions;
      }
      forall i | i in r.m.limits && SellsAt(r.m, i, mia, b) && bids == map[] ensures i in r.passed {
        assert i !in bids;
      }
    } else {
      BestOf(positions);
      BestOf(bids);
      var id :| id in positions && IsBest(positions, id);
      var bid :| bid in bids && IsBest(bids, bid);
      DueMeans(r, mia, b, id, bid);
      forall i | IsBest(positions, i) ensures i == id { OneBest(positions, i, id); }
      forall i | IsBest(bids, i) ensures i == bid { OneBest(bids, i, bid); }
      assert id in r.m.calls && r.m.calls[id].price.quote == mia;
      assert bid in r.m.limits && SellsAt(r.m, bid, mia, b) && bid !in r.passed;
      if !Due(r, mia, b, id, bid) { NothingDue(r, mia, b, id, bid); }
    }
  }

  lemma LoopLeaves(mia: AssetId, b: BitAsset, m0: State, rounds: seq<Round>, calls: seq<(OrderId, OrderId)>,
                   enable: bool, r: Outcome, m: State)
    requires LoopRuns(mia, b, m0, rounds, calls, enable, r, m) && Unsettled(m, mia)
    ensures CallRun(mia, b, rounds, calls) && rounds[0].m == m0 && m == rounds[|calls|].m
  {
    hide CallStep, BlackSwan, Due, Payable, SwanSettled, SettledGlobally;
    SwanSettles(rounds[|calls|].m, m, mia);
  }

  lemma {:induction false} RoundsLeave(mia: AssetId, b: BitAsset, rounds: seq<Round>, calls: seq<(OrderId, OrderId)>,
                                       n: nat, i: OrderId)
    requires CallRun(mia, b, rounds, calls) && n <= |calls| && i in rounds[0].m.calls && b.feed.Some?
    requires rounds[0].m.calls[i].price.quote == mia ==> !AtLeast(rounds[0].m.calls[i].price.Inverse(), b.feed.value)
    ensures i in rounds[n].m.calls && rounds[n].m.calls[i] == rounds[0].m.calls[i]
  {
    hide AtLeast, CallStep;
    if n > 0 {
      RoundsLeave(mia, b, rounds, calls, n - 1, i);
      assert CallStep(mia, b, rounds[n - 1], calls[n - 1].0, calls[n - 1].1, rounds[n]);
      StepLeaves(mia, b, rounds[n - 1], calls[n - 1].0, calls[n - 1].1, rounds[n], i);
    }
  }

  lemma StepLeaves(mia: AssetId, b: BitAsset, r: Round, id: OrderId, bid: OrderId, r': Round, i: OrderId)
    requires CallStep(mia, b, r, id, bid, r') && i in r.m.calls && b.feed.Some?
    requires r.m.calls[i].price.quote == mia ==> !AtLeast(r.m.calls[i].price.Inverse(), b.feed.value)
    ensures i in r'.m.calls && r'.m.calls[i] == r.m.calls[i]
  {
    hide Inv, IsBest, AtLeast, Called, FromBase, BlackSwan, Bids, CallGain, Holding, Owed;
    assert i != id;
    CallPays(r.m, mia, id, bid);
    assert i in r'.m.calls - {id} <==> i in r.m.calls - {id};
    assert i in r.m.calls - {id} ==> (r'.m.calls - {id})[i] == (r.m.calls - {id})[i];
  }

  lemma DueMeans(r: Round, mia: AssetId, b: BitAsset, id: OrderId, bid: OrderId)
    requires b.feed.Some? && IsBest(Positions(r.m, mia), id) && id in r.m.calls
    requires IsBest(Bids(r.m, mia, b.backing, b.squeeze, r.passed), bid) && bid in r.m.limits
    ensures Due(r, mia, b, id, bid) <==>
      && AtLeast(r.m.calls[id].price.Inverse(), b.feed.value)
      && AtLeast(r.m.calls[id].price.Inverse(), r.m.limits[bid].price)
  {
    hide IsBest, Positions, Bids, AtLeast;
  }

  lemma TooDearMeans(mia: AssetId, b: BitAsset, m0: State, id: OrderId, bid: OrderId, enable: bool, r: Outcome,
                     m: State)
    requires !Payable(m0, id, bid) && b.feed.Some?
    requires if enable then r == Done(true) && SettledGlobally(m0, m, mia, b.feed.value) else r.Thrown? && m == m0
    ensures TooDear(mia, b, m0, id, bid, enable, r, m)
  {
    hide SettledGlobally, Payable;
  }

  lemma CallStepIs(mia: AssetId, b: BitAsset, r: Round, id: OrderId, bid: OrderId, r': Round)
    requires Inv(r.m) && Callable(r.m, mia, id, bid, 0) && Due(r, mia, b, id, bid) && Payable(r.m, id, bid)
    requires !BlackSwan(r.m, mia) && r'.m == Called(r.m, mia, id, bid)
    requires r'.filled == (r.filled || r.m.calls[id].debt >= r.m.limits[bid].forSale)
    requires r'.passed == if r'.filled then r.passed + {bid} else r.passed
    ensures CallStep(mia, b, r, id, bid, r')
  {
    hide Inv, Callable, Due, BlackSwan, Called, FromBase;
  }

  lemma NothingDue(r: Round, mia: AssetId, b: BitAsset, id: OrderId, bid: OrderId)
    requires IsBest(Positions(r.m, mia), id) && IsBest(Bids(r.m, mia, b.backing, b.squeeze, r.passed), bid)
    requires !Due(r, mia, b, id, bid)
    ensures forall i, j :: !Due(r, mia, b, i, j)
  {
    hide IsBest, Positions, Bids, AtLeast;
    forall i, j ensures !Due(r, mia, b, i, j) {
      if Due(r, mia, b, i, j) {
        OneBest(Positions(r.m, mia), i, id);
        OneBest(Bids(r.m, mia, b.backing, b.squeeze, r.passed), j, bid);
      }
    }
  }

  lemma NobodyDue(r: Round, mia: AssetId, b: BitAsset)
    requires Positions(r.m, mia) == map[] || Bids(r.m, mia, b.backing, b.squeeze, r.passed) == map[]
    ensures forall i, j :: !Due(r, mia, b, i, j)
  {
    hide AtLeast;
  }

  /** Both assets of a market have been checked, one after the other; the first throw ends it. */
  ghost predicate BothChecked(m0: State, price: Price, enable: bool, r: Outcome, m: State)
    requires price.base in m0.assets
  {
    if r.Thrown? && CallsChecked(m0, price.base, enable, r, m) then true
    else exists first, middle, second ::
      && SecondChecked(m0, price, enable, first, middle, second, m)
      && r == if second.Thrown? then Thrown else Done(first.flag || second.flag)
  }

  ghost predicate SecondChecked(m0: State, price: Price, enable: bool, first: Outcome, middle: State,
                                second: Outcome, m: State)
    requires price.base in m0.assets
  {
    && CallsChecked(m0, price.base, enable, first, middle) && first.Done?
    && price.quote in middle.assets && CallsChecked(middle, price.quote, enable, second, m)
  }

  // ----- matching an order in full

  /** One match: with the best order on the other side. */
  ghost predicate BookStep(m: State, id: OrderId, price: Price, maker: OrderId, m': State) {
    && Prepared(m, id, maker) && IsBest(Crossing(m, price), maker)
    && m' == Matched(m, id, maker)
  }

  /** An order has been matched with the orders `makers`, one after the other, through these states of the book. */
  ghost predicate Tracing(m0: State, id: OrderId, states: seq<State>, makers: seq<OrderId>, m: State) {
    && id in m0.limits && |states| == |makers| + 1 && states[0] == m0 && states[|makers|] == m
    && forall i :: 0 <= i < |makers| ==> BookStep(states[i], id, m0.limits[id].price, makers[i], states[i + 1])
  }

  /** Matching ends with the order filled, or with nothing left on the other side that meets its price. */
  ghost predicate BookMatched(m0: State, id: OrderId, m: State) {
    && id in m0.limits && (id in m.limits ==> Crossing(m, m0.limits[id].price) == map[])
    && exists states, makers :: Tracing(m0, id, states, makers, m)
  }

  predicate OnOtherSide(m: State, i: OrderId, price: Price) {
    i in m.limits && m.limits[i].price.base == price.quote && m.limits[i].price.quote == price.base
  }

  /** Every match is with an order on the other side that meets the limit and that no other such order beats, and gives
      the new order at least its own price, rounded down. */
  lemma StepMeetsLimit(m: State, id: OrderId, price: Price, maker: OrderId, m': State, other: OrderId)
    requires BookStep(m, id, price, maker, m') && price == m.limits[id].price
    ensures OnOtherSide(m, maker, price) && AtLeast(m.limits[maker].price, price.Inverse())
    ensures OnOtherSide(m, other, price) ==>
      AtLeast(m.limits[maker].price, m.limits[other].price) || !AtLeast(m.limits[other].price, price.Inverse())
    ensures ValidPrice(m.limits[maker].price) && ValidPrice(price)
    ensures var (takerPays, makerPays) :=
      Exchanged(m.limits[id].forSale, m.limits[maker].forSale, m.limits[maker].price);
      makerPays >= FromBase(takerPays, price)
  {
    hide Inv, AtLeast, Exchanged, FromBase, Matched;
    LimitFacts(m, id);
    LimitFacts(m, maker);
    var crossing := Crossing(m, price);
    if other in crossing {
      BestIsHighest(crossing, maker, other);
    }
    LimitPricesAreKept(m.limits[id].forSale, m.limits[maker].forSale, m.limits[maker].price, price);
  }

  /** An order stays on the book only while every order on the other side asks for more than its limit. */
  lemma UncrossedMeans(m: State, price: Price, other: OrderId)
    requires Crossing(m, price) == map[] && OnOtherSide(m, other, price)
    ensures !AtLeast(m.limits[other].price, price.Inverse())
  {
    assert other !in Crossing(m, price);
  }

  lemma TracingStarts(m: State, id: OrderId)
    requires id in m.limits
    ensures Tracing(m, id, [m], [], m)
  {
  }

  lemma TracingOn(m0: State, id: OrderId, states: seq<State>, makers: seq<OrderId>, m: State, maker: OrderId, m': State)
    requires Tracing(m0, id, states, makers, m) && id in m0.limits && Prepared(m, id, maker)
    requires IsBest(Crossing(m, m0.limits[id].price), maker) && m' == Matched(m, id, maker)
    ensures Tracing(m0, id, states + [m'], makers + [maker], m')
  {
    hide Inv, IsBest, Crossing, Matched;
    assert BookStep(m, id, m0.limits[id].price, maker, m');
    hide BookStep;
  }

  lemma TracingEnds(m0: State, id: OrderId, states: seq<State>, makers: seq<OrderId>, m: State)
    requires Tracing(m0, id, states, makers, m) && id in m0.limits
    requires id in m.limits ==> Crossing(m, m0.limits[id].price) == map[]
    ensures BookMatched(m0, id, m)
  {
    hide BookStep, Crossing;
  }

  /** What applying an order does: margin calls in both assets, matching, margin calls again, and culling. */
  ghost predicate OrderApplied(m0: State, id: OrderId, allow: bool, r: Outcome, m: State) {
    exists first, m1 :: AppliedFrom(m0, id, allow, first, m1, r, m)
  }

  ghost predicate AppliedFrom(m0: State, id: OrderId, allow: bool, first: Outcome, m1: State, r: Outcome, m: State) {
    && id in m0.limits && m0.limits[id].price.base in m0.assets
    && BothChecked(m0, m0.limits[id].price, allow, first, m1)
    && if first.Thrown? || (first.flag && id !in m1.limits) then r == first && m == m1
       else exists m2, second, m3 :: AppliedAfter(m1, id, m0.limits[id].price, allow, m2, second, m3, r, m)
  }

  ghost predicate AppliedAfter(m1: State, id: OrderId, price: Price, allow: bool, m2: State, second: Outcome, m3: State,
                               r: Outcome, m: State)
  {
    && BookMatched(m1, id, m2)
    && price.base in m2.assets && BothChecked(m2, price, allow, second, m3)
    && if second.Thrown? then r == second && m == m3
       else if id !in m3.limits then r == Done(true) && m == m3
       else
         && price.baseAmount > 0
         && var tooSmall := FromBase(m3.limits[id].forSale, price) == 0;
         r == Done(tooSmall) && m == if tooSmall then CancelLimit(m3, id) else m3
  }

  lemma AppliedAtOnce(m0: State, id: OrderId, allow: bool, r: Outcome, m: State)
    requires id in m0.limits && m0.limits[id].price.base in m0.assets
    requires BothChecked(m0, m0.limits[id].price, allow, r, m)
    requires r.Thrown? || (r.flag && id !in m.limits)
    ensures OrderApplied(m0, id, allow, r, m)
  {
    hide BothChecked;
    assert AppliedFrom(m0, id, allow, r, m, r, m);
  }

  lemma AppliedInFull(m0: State, id: OrderId, allow: bool, first: Outcome, m1: State, m2: State, second: Outcome,
                      m3: State, r: Outcome, m: State)
    requires id in m0.limits && m0.limits[id].price.base in m0.assets
    requires BothChecked(m0, m0.limits[id].price, allow, first, m1) && first.Done? && (first.flag ==> id in m1.limits)
    requires AppliedAfter(m1, id, m0.limits[id].price, allow, m2, second, m3, r, m)
    ensures OrderApplied(m0, id, allow, r, m)
  {
    hide BothChecked, AppliedAfter;
    assert AppliedFrom(m0, id, allow, first, m1, r, m);
  }

  lemma AppliedIs(m1: State, id: OrderId, price: Price, allow: bool, m2: State, second: Outcome, m3: State,
                  r: Outcome, m: State)
    requires BookMatched(m1, id, m2) && price.base in m2.assets && BothChecked(m2, price, allow, second, m3)
    requires second.Thrown? ==> r == second && m == m3
    requires second.Done? && id !in m3.limits ==> r == Done(true) && m == m3
    requires second.Done? && id in m3.limits ==>
      && price.baseAmount > 0 && r == Done(FromBase(m3.limits[id].forSale, price) == 0)
      && m == if FromBase(m3.limits[id].forSale, price) == 0 then CancelLimit(m3, id) else m3
    ensures AppliedAfter(m1, id, price, allow, m2, second, m3, r, m)
  {
    hide BookMatched, BothChecked, FromBase, CancelLimit;
  }

  class Exchange {
    var m: State

    /** Fill both orders at the maker's price. The bits say which of them were filled: 1 the taker, 2 the maker. */
    method Match(taker: OrderId, maker: OrderId) returns (bits: nat)
      requires Prepared(m, taker, maker)
      modifies this
      ensures m == Matched(old(m), taker, maker)
      ensures var o, p := old(m).limits[taker], old(m).limits[maker];
        var (takerPays, makerPays) := Exchanged(o.forSale, p.forSale, p.price);
        && takerPays <= o.forSale && makerPays <= p.forSale
        && OrdersMatched(old(m), taker, maker, takerPays, makerPays, m)
        && MatchPaid(old(m), taker, maker, takerPays, makerPays, m)
      ensures Inv(m) && Conserves(old(m), m) && m.assets.Keys == old(m).assets.Keys
      ensures 1 <= bits <= 3
      ensures bits % 2 == 1 <==> taker !in m.limits
      ensures bits >= 2 <==> maker !in m.limits
      ensures taker in m.limits ==> m.limits[taker].price == old(m).limits[taker].price
      ensures m.limits.Keys <= old(m).limits.Keys
      ensures forall i <- m.limits :: m.limits[i].price == old(m).limits[i].price
    {
      hide Net, SameRules, OnlyLimit, Conserves, Inv, FillLimit, Exchanged, OrdersMatched, MatchPaid;
      MatchPays(m, taker, maker);
      LimitFacts(m, taker);
      LimitFacts(m, maker);
      var o, p := m.limits[taker], m.limits[maker];
      ExchangeIsAffordable(o.forSale, p.forSale, p.price);
      var (takerPays, makerPays) := Exchanged(o.forSale, p.forSale, p.price);
      ExchangeConserves(m, taker, maker, takerPays, makerPays);
      TakerFilled(m, taker, maker, takerPays, makerPays);
      FilledPrices(m, taker, takerPays, makerPays, false);
      m := FillLimit(m, taker, takerPays, makerPays, false);
      bits := if taker in m.limits then 0 else 1;
      FillLimitInv(m, maker, makerPays, takerPays, true);
      FilledPrices(m, maker, makerPays, takerPays, true);
      m := FillLimit(m, maker, makerPays, takerPays, true);
      bits := bits + if maker in m.limits then 0 else 2;
    }

    /** Close every position in `mia` at `price`, keep the collateral that this takes, and fix the price at which
        the whole supply can be redeemed from it. */
    method GloballySettle(mia: AssetId, price: Price)
      requires Inv(m) && ClosingPrice(m, mia, price)
      modifies this
      ensures Inv(m) && Conserves(old(m), m) && m.assets.Keys == old(m).assets.Keys
      ensures m.limits == old(m).limits && m.settles == old(m).settles
      ensures SettledGlobally(old(m), m, mia, price)
      ensures Positions(m, mia) == map[] && m.assets[mia].supply == old(m).assets[mia].supply
      ensures m.assets[mia].bit.Some? && old(m).assets[mia].supply >= 0
      ensures var b := m.assets[mia].bit.value;
        b.settlement == Some(Price(mia, m.assets[mia].supply, b.backing, b.fund))
          && b.fund == Sum(old(m).calls, TakenIn(mia, price))
    {
      hide Inv, Conserves, Settling, Closing, SettledGlobally, IsBest, FromBase, FillCall, Sum, Taken;
      var m0, gathered: nat := m, 0;
      SupplyNotNegative(m, mia);
      var supply: nat := m.assets[mia].supply;
      SettlingStarts(m, mia, supply);
      ClosingStarts(m, mia, price);
      while Positions(m, mia) != map[]
        invariant Settling(m0, m, mia, gathered, supply) && Closing(m0, m, mia, price)
        invariant gathered + Sum(m.calls, TakenIn(mia, price)) == Sum(m0.calls, TakenIn(mia, price))
        decreases |m.calls|
      {
        SettlingFacts(m0, m, mia, gathered, supply);
        PositionsPositive(m, mia);
        BestOf(Positions(m, mia));
        var id :| id in Positions(m, mia) && IsBest(Positions(m, mia), id);
        var o := m.calls[id];
        var pays := FromBase(o.debt, price);
        if pays > o.collateral { pays := o.collateral; }
        assert pays == Taken(o, price) by { TakenIs(o, price); }
        SumRemove(m.calls, id, TakenIn(mia, price));
        ClosePosition(m0, m, mia, id, pays, gathered, supply);
        ClosesOne(m0, m, mia, price, id);
        gathered := gathered + pays;
        MapSmaller(m.calls - {id}, m.calls);
        m := FillCall(m, id, pays, o.debt);
      }
      NothingTaken(m, mia, price);
      SettlingFacts(m0, m, mia, gathered, supply);
      Settled(m0, m, mia, gathered, supply);
      ClosedAll(m0, m, mia, price, supply, gathered);
      m := WithFund(m, mia, supply, gathered);
    }

    /** Settle the asset if the position with the lowest call price is worth no more than the best bid and the feed. */
    method CheckForBlackSwan(mia: AssetId, enable: bool) returns (r: Outcome)
      requires Inv(m) && mia in m.assets
      modifies this
      ensures Inv(m) && Conserves(old(m), m) && m.assets.Keys == old(m).assets.Keys
      ensures m.limits == old(m).limits && m.settles == old(m).settles
      ensures r != Done(true) ==> m == old(m)
      ensures r.Thrown? ==> !enable
      ensures r == Done(false) && m.assets[mia].bit.Some? ==> Unsettled(m, mia)
      ensures r == Done(false) ==> !BlackSwan(m, mia)
      ensures r.Thrown? ==> Unsettled(m, mia) && BlackSwan(m, mia)
      ensures r == Done(true) ==>
        if Unsettled(old(m), mia) then enable && SwanSettled(old(m), m, mia) && !Unsettled(m, mia) else m == old(m)
      ensures r == Done(true) && Unsettled(old(m), mia) ==> BlackSwan(old(m), mia)
    {
      hide Net, AtLeast, Inv, Conserves, Sum, SettledGlobally;
      ConservesSelf(m);
      AssetFacts(m, mia);
      if m.assets[mia].bit.None? { return Done(false); }
      var b := m.assets[mia].bit.value;
      if b.settlement.Some? { return Done(true); }
      if b.feed.None? { return Done(false); }
      if Positions(m, mia) == map[] {
        assert forall i :: !IsBest(Positions(m, mia), i);
        return Done(false);
      }
      var highest := HighestPrice(mia, b.backing, b.feed.value);
      PositionsPositive(m, mia);
      BestOf(Positions(m, mia));
      var id :| id in Positions(m, mia) && IsBest(Positions(m, mia), id);
      CallFacts(m, id);
      SwanIsExact(m, mia, id, highest);
      if AtLeast(m.calls[id].SwanPrice(), highest) {
        if !enable { return Thrown; }
        GloballySettle(mia, m.calls[id].SwanPrice());
        return Done(true);
      }
      return Done(false);
    }

    /** The feed, or the best bid if that is no lower. */
    method HighestPrice(mia: AssetId, backing: AssetId, feed: Price) returns (highest: Price)
      requires Inv(m) && feed.baseAmount > 0
      ensures IsHighest(m, mia, backing, feed, highest)
    {
      hide Net, Inv;
      highest := feed;
      var bids := AllBids(m, mia, backing);
      if bids != map[] {
        BidsPositive(m, mia, backing, Price(mia, 0, backing, 1), {});
        BestOf(bids);
        var best :| best in bids && IsBest(bids, best);
        forall i | i in bids
          ensures AtLeast(bids[best], bids[i]) && (!AtLeast(bids[best], feed) ==> AtLeast(feed, bids[i]))
        {
          assert Before(bids[best], best, bids[i], i);
          if !AtLeast(bids[best], feed) {
            AtLeastTransitive(feed, bids[best], bids[i]);
          }
        }
        if AtLeast(bids[best], highest) { highest := bids[best]; }
      }
    }

    /** The position covers as much of its debt as the order offers, paying the order's price from its collateral. */
    method ExecuteCall(mia: AssetId, id: OrderId, bid: OrderId) returns (filledLimit: bool)
      requires Inv(m) && Callable(m, mia, id, bid, 0)
      requires FromBase(m.calls[id].debt, m.limits[bid].price) <= m.calls[id].collateral
      modifies this
      ensures m == Called(old(m), mia, id, bid)
      ensures var o, p := old(m).calls[id], old(m).limits[bid];
        var amount := if o.debt <= p.forSale then o.debt else p.forSale;
        && Callable(old(m), mia, id, bid, amount)
        && CallPaid(old(m), mia, id, bid, amount, FromBase(amount, p.price), m)
      ensures Inv(m) && Conserves(old(m), m) && m.assets.Keys == old(m).assets.Keys
      ensures Unsettled(m, mia) && m.assets[mia].bit.value == old(m).assets[mia].bit.value
      ensures m.limits.Keys <= old(m).limits.Keys
      ensures (forall i <- m.limits :: m.limits[i].price == old(m).limits[i].price)
      ensures filledLimit == (old(m).calls[id].debt >= old(m).limits[bid].forSale)
      ensures filledLimit ==> bid !in m.limits
      ensures Positions(m, mia).Keys <= Positions(old(m), mia).Keys
      ensures !filledLimit ==> id !in Positions(m, mia)
    {
      hide Net, Inv, Conserves, FromBase, FillCall, FillLimit, CallPaid;
      CallPays(m, mia, id, bid);
      var o, limit := m.calls[id], m.limits[bid];
      var amount := if o.debt >= limit.forSale then limit.forSale else o.debt;
      filledLimit := o.debt >= limit.forSale;
      FromBaseMonotone(amount, o.debt, limit.price);
      MarginCall(m, mia, id, bid, amount);
      CallFacts(m, id);
      var m1 := FillCall(m, id, FromBase(amount, limit.price), amount);
      m := FillLimit(m1, bid, amount, FromBase(amount, limit.price), true);
    }

    /** The position with the lowest call price. */
    method LeastCovered(mia: AssetId) returns (id: OrderId)
      requires Inv(m) && Positions(m, mia) != map[]
      ensures id in Positions(m, mia) && IsBest(Positions(m, mia), id) && id in m.calls
    {
      hide Inv, IsBest, Positions;
      PositionsPositive(m, mia);
      BestOf(Positions(m, mia));
      id :| id in Positions(m, mia) && IsBest(Positions(m, mia), id);
    }

    /** The best bid that has not been passed yet. */
    method HighestBid(mia: AssetId, b: BitAsset, passed: set<OrderId>) returns (bid: OrderId)
      requires Inv(m) && Bids(m, mia, b.backing, b.squeeze, passed) != map[]
      ensures var bids := Bids(m, mia, b.backing, b.squeeze, passed);
        && bid in bids && IsBest(bids, bid) && bid in m.limits && ValidPrice(m.limits[bid].price)
        && m.limits[bid].price.base == mia && m.limits[bid].price.quote == b.backing
    {
      hide Inv, IsBest, Bids;
      var bids := Bids(m, mia, b.backing, b.squeeze, passed);
      BidsPositive(m, mia, b.backing, b.squeeze, passed);
      BestOf(bids);
      bid :| bid in bids && IsBest(bids, bid);
    }

    /** Margin calls: match the lowest call prices against the best bids until one side runs out. */
    method CheckCallOrders(mia: AssetId, enable: bool) returns (r: Outcome)
      requires Inv(m) && mia in m.assets
      modifies this
      ensures Traded(old(m), m) && CallsChecked(old(m), mia, enable, r, m)
      ensures r == Done(false) ==> m.limits == old(m).limits
      ensures r.Thrown? ==> !enable
    {
      hide Inv, Conserves, AtLeast, IsBest, Traded, BlackSwan, SwanSettled, LoopRuns, Bids;
      TradedSelf(m);
      if m.assets[mia].bit.None? { return Done(false); }
      var swan := CheckForBlackSwan(mia, enable);
      TradedOn(old(m), old(m), m);
      if swan != Done(false) { return if swan.Thrown? then Thrown else Done(false); }
      var b := m.assets[mia].bit.value;
      if b.prediction || b.feed.None? { return Done(false); }
      if Bids(m, mia, b.backing, b.squeeze, {}) == map[] { return Done(false); }
      r := CallPositions(mia, b, enable);
      LoopMeans(mia, b, old(m), enable, r, m);
    }

    /** The loop: call the position with the lowest call price on the best bid, again and again. */
    method CallPositions(mia: AssetId, b: BitAsset, enable: bool) returns (r: Outcome)
      requires Inv(m) && Unsettled(m, mia) && m.assets[mia].bit.value == b && b.feed.Some?
      modifies this
      ensures Traded(old(m), m)
      ensures exists rounds, calls :: LoopRuns(mia, b, old(m), rounds, calls, enable, r, m)
    {
      hide Inv, Conserves, Callable, Called, FromBase, AtLeast, IsBest, Positions, Bids, Traded;
      hide BlackSwan, SwanSettled, SettledGlobally, Calling, LoopRuns, Due, TooDear;
      TradedSelf(m);
      var passed: set<OrderId>, filledLimit, marginCalled := {}, false, false;
      ghost var rounds, calls: seq<(OrderId, OrderId)> := [Round(m, {}, false)], [];
      CallingStarts(mia, b, m);
      while true
        invariant Inv(m) && Traded(old(m), m) && Unsettled(m, mia) && m.assets[mia].bit.value == b
        invariant Calling(mia, b, old(m), rounds, calls, Round(m, passed, filledLimit), marginCalled)
        decreases |Positions(m, mia)| + |Bids(m, mia, b.backing, b.squeeze, passed)|
      {
        ghost var round := Round(m, passed, filledLimit);
        ghost var before := m;
        var swan := CheckForBlackSwan(mia, enable);
        TradedOn(old(m), before, m);
        if swan != Done(false) {
          r := if swan.Thrown? then Thrown else Done(marginCalled);
          LoopIsDone(mia, b, old(m), rounds, calls, round, marginCalled, enable, r, m);
          return r;
        }
        var bids := Bids(m, mia, b.backing, b.squeeze, passed);
        if Positions(m, mia) == map[] || bids == map[] {
          NobodyDue(round, mia, b);
          LoopIsDone(mia, b, old(m), rounds, calls, round, marginCalled, enable, Done(marginCalled), m);
          return Done(marginCalled);
        }

        var id := LeastCovered(mia);
        var bid := HighestBid(mia, b, passed);
        var o, limit := m.calls[id], m.limits[bid];
        DueMeans(round, mia, b, id, bid);
        if !AtLeast(o.price.Inverse(), b.feed.value) || !AtLeast(o.price.Inverse(), limit.price) {
          NothingDue(round, mia, b, id, bid);
          LoopIsDone(mia, b, old(m), rounds, calls, round, marginCalled, enable, Done(marginCalled), m);
          return Done(marginCalled);
        }

        CallableSmaller(m, mia, id, bid);
        AssetFacts(m, mia);
        if FromBase(o.debt, limit.price) > o.collateral {
          if enable { GloballySettle(mia, b.feed.value); }
          r := if enable then Done(true) else Thrown;
          TradedOn(old(m), before, m);
          TooDearMeans(mia, b, before, id, bid, enable, r, m);
          LoopIsDone(mia, b, old(m), rounds, calls, round, marginCalled, enable, r, m);
          return r;
        }

        var filled := ExecuteCall(mia, id, bid);
        TradedOn(old(m), before, m);
        filledLimit := filledLimit || filled;
        if filledLimit { passed := passed + {bid}; }
        CallingOn(mia, b, old(m), rounds, calls, round, marginCalled, id, bid, Round(m, passed, filledLimit));
        marginCalled := true;
        rounds, calls := rounds + [Round(m, passed, filledLimit)], calls + [(id, bid)];
        BidsShrink(before, m, mia, b.backing, b.squeeze, round.passed, passed, bid);
        MapSmaller(Positions(m, mia), Positions(before, mia));
        MapSmaller(Bids(m, mia, b.backing, b.squeeze, passed), bids);
      }
    }

    /** Margin calls in both assets of a market. */
    method CheckBothSides(price: Price, enable: bool) returns (r: Outcome)
      requires Inv(m) && price.base in m.assets && price.quote in m.assets
      modifies this
      ensures Traded(old(m), m) && BothChecked(old(m), price, enable, r, m)
      ensures r == Done(false) ==> m.limits == old(m).limits
      ensures r.Thrown? ==> !enable
    {
      hide Inv, Conserves, CallsChecked;
      r := CheckCallOrders(price.base, enable);
      if r.Thrown? { return; }
      var first := r;
      ghost var middle := m;
      r := CheckCallOrders(price.quote, enable);
      TradedOn(old(m), middle, m);
      assert SecondChecked(old(m), price, enable, first, middle, r, m);
      if r.Thrown? { return; }
      r := Done(first.flag || r.flag);
    }

    /** Match the order with the best order on the other side, again and again, while only the other one is filled. */
    method MatchBook(id: OrderId)
      requires Inv(m) && id in m.limits
      modifies this
      ensures Traded(old(m), m) && BookMatched(old(m), id, m)
      ensures id in m.limits ==> Crossing(m, old(m).limits[id].price) == map[]
    {
      hide Inv, Conserves, AtLeast, IsBest, Matched, Crossing, Traded, Tracing, OrdersMatched, MatchPaid, Exchanged;
      var price := m.limits[id].price;
      LimitFacts(m, id);
      TradedSelf(m);
      ghost var states, makers: seq<OrderId> := [m], [];
      TracingStarts(m, id);
      var finished := false;
      while !finished && Crossing(m, price) != map[]
        invariant Inv(m) && Traded(old(m), m) && Tracing(old(m), id, states, makers, m)
        invariant (finished <==> id !in m.limits) && (id in m.limits ==> m.limits[id].price == price)
        decreases !finished, |Crossing(m, price)|
      {
        var crossing := Crossing(m, price);
        CrossingPositive(m, price);
        BestOf(crossing);
        var maker :| maker in crossing && IsBest(crossing, maker);
        ghost var before := m;
        var bits := Match(id, maker);
        TradedOn(old(m), before, m);
        TracingOn(old(m), id, states, makers, before, maker, m);
        states, makers := states + [m], makers + [maker];
        finished := bits != 2;
        if !finished {
          CrossingShrinks(before, m, price, maker);
          MapSmaller(Crossing(m, price), crossing);
        }
      }
      TracingEnds(old(m), id, states, makers, m);
    }

    /** Cancel an order that is too small to ask for anything. */
    method CullSmall(id: OrderId) returns (culled: bool)
      requires Inv(m) && id in m.limits
      modifies this
      ensures Traded(old(m), m) && ValidPrice(old(m).limits[id].price)
      ensures culled == (FromBase(old(m).limits[id].forSale, old(m).limits[id].price) == 0)
      ensures m == if culled then CancelLimit(old(m), id) else old(m)
      ensures culled ==> id !in m.limits
    {
      hide Inv, Conserves, FromBase, CancelLimit;
      LimitFacts(m, id);
      ConservesSelf(m);
      CancelLimitPays(m, id, 0, 0);
      culled := FromBase(m.limits[id].forSale, m.limits[id].price) == 0;
      if culled {
        CancelKeepsInv(m, id);
        m := CancelLimit(m, id);
      }
    }

    /** Match a new order against the book and cull what is left if it asks for nothing. An order that stays on the
        book still asks for something, and nothing on the other side meets its price. */
    method ApplyOrder(id: OrderId, allowBlackSwan: bool) returns (r: Outcome)
      requires Inv(m) && id in m.limits
      modifies this
      ensures Traded(old(m), m) && OrderApplied(old(m), id, allowBlackSwan, r, m)
      ensures r == Done(true) ==> id !in m.limits
      ensures r == Done(false) ==>
        id in m.limits && ValidPrice(m.limits[id].price) && FromBase(m.limits[id].forSale, m.limits[id].price) > 0
      ensures r == Done(false) ==>
        m.limits[id].price == old(m).limits[id].price && Crossing(m, m.limits[id].price) == map[]
      ensures r.Thrown? ==> !allowBlackSwan
    {
      hide Inv, FromBase, AtLeast, CancelLimit, BothChecked, BookMatched, Traded, Crossing;
      hide AppliedAfter, AppliedFrom, OrderApplied;
      var price := m.limits[id].price;
      LimitFacts(m, id);
      r := CheckBothSides(price, allowBlackSwan);
      TradedMeans(old(m), m, id);
      ghost var first, m1 := r, m;
      if r.Thrown? || (r.flag && id !in m.limits) {
        AppliedAtOnce(old(m), id, allowBlackSwan, r, m);
        return;
      }

      MatchBook(id);
      TradedMeans(m1, m, id);
      TradedTwice(old(m), m1, m);

      ghost var m2 := m;
      r := CheckBothSides(price, allowBlackSwan);
      ghost var second, m3 := r, m;
      TradedMeans(m2, m, id);
      TradedTwice(old(m), m2, m);
      if !r.Thrown? && id in m.limits {
        StaysUncrossed(m2, m, price);
        var culled := CullSmall(id);
        r := Done(culled);
        TradedTwice(old(m), m3, m);
      } else if !r.Thrown? {
        r := Done(true);
      }
      AppliedIs(m1, id, price, allowBlackSwan, m2, second, m3, r, m);
      AppliedInFull(old(m), id, allowBlackSwan, first, m1, m2, second, m3, r, m);
    }
  }
}
