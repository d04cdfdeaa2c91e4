/** Picking the best entry of an ordered index: highest price first, then lowest id. */
module PriceIndex {
  import opened Market

  /** `a` comes no later than `b`. */
  predicate Before(a: Price, i: OrderId, b: Price, j: OrderId) {
    AtLeast(a, b) && (AtLeast(b, a) ==> i <= j)
  }

  predicate IsBest(prices: map<OrderId, Price>, i: OrderId) {
    i in prices && forall j <- prices :: Before(prices[i], i, prices[j], j)
  }

  /** Prices are compared as ratios. */
  lemma AtLeastIsRatio(a: Price, b: Price)
    requires a.quoteAmount > 0 && b.quoteAmount > 0
    ensures AtLeast(a, b) <==>
      a.baseAmount as real / a.quoteAmount as real >= b.baseAmount as real / b.quoteAmount as real
  {
    var (x, y) := (a.quoteAmount as real, b.quoteAmount as real);
    var (p, q) := (a.baseAmount as real / x, b.baseAmount as real / y);
    assert a.baseAmount as real == p * x && b.baseAmount as real == q * y;
    assert (a.baseAmount * b.quoteAmount) as real == p * (x * y);
    assert (b.baseAmount * a.quoteAmount) as real == q * (x * y);
    RealOrder(p, q, x * y);
  }

  lemma RealOrder(p: real, q: real, z: real)
    requires z > 0.0
    ensures p >= q <==> p * z >= q * z
  {
  }

  /** The first entry has the highest price, and the lowest id among those with that price. */
  lemma BestIsHighest(prices: map<OrderId, Price>, i: OrderId, j: OrderId)
    requires IsBest(prices, i) && j in prices
    ensures AtLeast(prices[i], prices[j]) && (AtLeast(prices[j], prices[i]) ==> i <= j)
  {
  }

  lemma AtLeastTransitive(a: Price, b: Price, c: Price)
    requires a.baseAmount > 0 && b.baseAmount > 0 && c.baseAmount > 0
    requires AtLeast(a, b) && AtLeast(b, c)
    ensures AtLeast(a, c)
  {
    if b.quoteAmount == 0 {
      assert b.baseAmount * a.quoteAmount <= 0;
      assert a.quoteAmount == 0;
    } else {
      var (ab, bc) := (a.baseAmount * b.quoteAmount, b.baseAmount * c.quoteAmount);
      assert ab * c.quoteAmount >= b.baseAmount * a.quoteAmount * c.quoteAmount;
      assert bc * a.quoteAmount >= c.baseAmount * b.quoteAmount * a.quoteAmount;
      assert b.quoteAmount * (a.baseAmount * c.quoteAmount) >= b.quoteAmount * (c.baseAmount * a.quoteAmount);
    }
  }

  lemma BeforeTransitive(a: Price, i: OrderId, b: Price, j: OrderId, c: Price, k: OrderId)
    requires a.baseAmount > 0 && b.baseAmount > 0 && c.baseAmount > 0
    requires Before(a, i, b, j) && Before(b, j, c, k)
    ensures Before(a, i, c, k)
  {
    AtLeastTransitive(a, b, c);
    if AtLeast(c, a) {
      AtLeastTransitive(c, a, b);
      AtLeastTransitive(b, c, a);
    }
  }

  lemma {:induction false} BestExists(prices: map<OrderId, Price>)
    requires prices != map[] && forall i <- prices :: prices[i].baseAmount > 0
    ensures exists i :: IsBest(prices, i)
    decreases |prices|
  {
    var p :| p in prices;
    var rest := prices - {p};
    if rest == map[] {
      forall j | j in prices ensures j == p { assert j !in rest; }
      assert IsBest(prices, p);
    } else {
      BestExists(rest);
      var b :| IsBest(rest, b);
      var i := if Before(prices[p], p, prices[b], b) then p else b;
      forall j | j in prices ensures Before(prices[i], i, prices[j], j) {
        if j in rest && i == p {
          BeforeTransitive(prices[p], p, prices[b], b, prices[j], j);
        }
      }
      assert IsBest(prices, i);
    }
  }
}

/** Matching limit orders, margin calls and global settlement. */
module Matching {
  import opened Arithmetic
  import opened Market

  /** The debt of every market-issued asset that has not been settled is its supply. */
  ghost predicate Covered(m: State) {
    forall x <- m.assets :: m.assets[x].bit.Some? && m.assets[x].bit.value.settlement.None? ==>
        m.assets[x].supply == Debt(m, x)
  }

  ghost predicate Inv(m: State) { Valid(m) && Covered(m) }

  /** Of every asset, holdings less supply stay what they were. */
  ghost predicate Conserves(m: State, r: State) { forall y :: Net(r, y) == Net(m, y) }

  /** Assets keep everything but supply and collected fees. */
  ghost predicate SameRules(m: State, r: State) {
    && r.assets.Keys == m.assets.Keys
    && forall x <- m.assets :: r.assets[x] == m.assets[x].(supply := r.assets[x].supply, fees := r.assets[x].fees)
  }

  lemma LimitChangeInv(m: State, r: State, id: OrderId)
    requires Inv(m) && id in m.limits && OnlyLimit(m, r, id)
    requires id in r.limits ==> r.limits[id].price == m.limits[id].price && r.limits[id].forSale > 0
    ensures Inv(r) && SameRules(m, r)
  {
    hide Covered, ValidAsset, ValidCall, ValidSettle;
    AssetsStayValid(m, r);
    forall i | i in r.limits ensures ValidLimit(r, r.limits[i]) {
      assert i != id ==> i in r.limits - {id} && (r.limits - {id})[i] == (m.limits - {id})[i];
      assert i in m.limits && ValidLimit(m, m.limits[i]);
    }
    forall i | i in r.calls ensures ValidCall(r, r.calls[i]) { CallStaysValid(m, r, m.calls[i], r.calls[i]); }
    SettlesStayValid(m, r);
    SameDebts(m, r);
  }

  lemma AssetsStayValid(m: State, r: State)
    requires Valid(m) && SameRules(m, r)
    ensures forall x <- r.assets :: ValidAsset(r, x)
  {
    hide ValidBit;
    forall x | x in r.assets ensures ValidAsset(r, x) { assert ValidAsset(m, x); }
  }

  lemma CallStaysValid(m: State, r: State, o: CallOrder, o': CallOrder)
    requires ValidCall(m, o) && SameRules(m, r) && o'.price == o.price && (o' == o || o'.debt > 0)
    ensures ValidCall(r, o')
  {
  }

  lemma LimitsStayValid(m: State, r: State)
    requires Valid(m) && SameRules(m, r) && r.limits == m.limits
    ensures forall i <- r.limits :: ValidLimit(r, r.limits[i])
  {
    hide ValidAsset, ValidSettle, ValidCall;
    forall i | i in r.limits ensures ValidLimit(r, r.limits[i]) { assert ValidLimit(m, m.limits[i]); }
  }

  lemma SettlesStayValid(m: State, r: State)
    requires Valid(m) && SameRules(m, r) && r.settles.Keys <= m.settles.Keys
    requires forall i <- r.settles :: r.settles[i].asset == m.settles[i].asset
    ensures forall i <- r.settles :: ValidSettle(r, r.settles[i])
  {
    hide ValidAsset, ValidLimit, ValidCall;
    forall i | i in r.settles ensures ValidSettle(r, r.settles[i]) { assert ValidSettle(m, m.settles[i]); }
  }

  lemma SameDebts(m: State, r: State)
    requires Covered(m) && r.calls == m.calls && r.assets.Keys == m.assets.Keys
    requires forall x <- m.assets :: r.assets[x] == m.assets[x].(fees := r.assets[x].fees)
    ensures Covered(r)
  {
    hide ValidAsset;
    forall x | x in r.assets && r.assets[x].bit.Some? && r.assets[x].bit.value.settlement.None?
      ensures r.assets[x].supply == Debt(r, x)
    {
      assert m.assets[x].supply == Debt(m, x);
    }
  }

  lemma FillLimitInv(m: State, id: OrderId, pays: nat, receives: nat, cull: bool)
    requires Inv(m) && id in m.limits && pays <= m.limits[id].forSale
    ensures var o := m.limits[id]; ValidPrice(o.price) && ValidAsset(m, o.price.quote)
    ensures var r := FillLimit(m, id, pays, receives, cull); Inv(r) && SameRules(m, r) && OnlyLimit(m, r, id)
  {
    hide Net, FillLimit, OnlyLimit, SameRules, Covered;
    assert ValidLimit(m, m.limits[id]);
    assert ValidAsset(m, m.limits[id].price.quote);
    FillLimitFlow(m, id, pays, receives, cull, 0);
    LimitChangeInv(m, FillLimit(m, id, pays, receives, cull), id);
  }

  lemma CallChangeValid(m: State, r: State, id: OrderId, debtAsset: AssetId)
    requires Valid(m) && id in m.calls && OnlyCall(m, r, id, debtAsset)
    requires id in r.calls ==> r.calls[id].price == m.calls[id].price && r.calls[id].debt > 0
    ensures Valid(r) && SameRules(m, r)
  {
    hide ValidAsset, ValidCall, ValidSettle;
    AssetsStayValid(m, r);
    LimitsStayValid(m, r);
    forall i | i in r.calls ensures ValidCall(r, r.calls[i]) {
      assert i != id ==> i in r.calls - {id} && (r.calls - {id})[i] == (m.calls - {id})[i];
      assert i in m.calls && ValidCall(m, m.calls[i]);
      CallStaysValid(m, r, m.calls[i], r.calls[i]);
    }
    SettlesStayValid(m, r);
  }

  lemma FillCallCovered(m: State, id: OrderId, pays: nat, receives: nat)
    requires Covered(m) && id in m.calls && m.calls[id].price.quote in m.assets
    requires pays <= m.calls[id].collateral && receives <= m.calls[id].debt
    ensures Covered(FillCall(m, id, pays, receives))
  {
    hide Net, Debt;
    var r := FillCall(m, id, pays, receives);
    FillCallShape(m, id, pays, receives);
    forall x | x in r.assets && r.assets[x].bit.Some? && r.assets[x].bit.value.settlement.None?
      ensures r.assets[x].supply == Debt(r, x)
    {
      FillCallFlow(m, id, pays, receives, x);
    }
  }

  lemma FillCallInv(m: State, id: OrderId, pays: nat, receives: nat)
    requires Inv(m) && id in m.calls && pays <= m.calls[id].collateral && receives <= m.calls[id].debt
    ensures m.calls[id].price.quote in m.assets
    ensures var r := FillCall(m, id, pays, receives); Inv(r) && SameRules(m, r)
  {
    hide FillCall, OnlyCall, SameRules, Covered;
    assert ValidCall(m, m.calls[id]);
    FillCallShape(m, id, pays, receives);
    CallChangeValid(m, FillCall(m, id, pays, receives), id, m.calls[id].price.quote);
    FillCallCovered(m, id, pays, receives);
  }

  /** Conversions round down, by less than one unit. */
  lemma ConversionsRoundDown(amount: nat, p: Price)
    ensures p.baseAmount > 0 ==>
      FromBase(amount, p) * p.baseAmount <= amount * p.quoteAmount < (FromBase(amount, p) + 1) * p.baseAmount
    ensures p.quoteAmount > 0 ==>
      FromQuote(amount, p) * p.quoteAmount <= amount * p.baseAmount < (FromQuote(amount, p) + 1) * p.quoteAmount
  {
    if p.baseAmount > 0 { DivBounds(amount * p.quoteAmount, p.baseAmount); }
    if p.quoteAmount > 0 { DivBounds(amount * p.baseAmount, p.quoteAmount); }
  }

  // ----- one limit order against another

  /** What the taker and the maker exchange at the maker's price: one of the two gives all it has. */
  function Exchanged(taker: nat, maker: nat, price: Price): (nat, nat)
    requires ValidPrice(price)
  {
    if taker <= FromBase(maker, price) then (taker, FromQuote(taker, price)) else (FromBase(maker, price), maker)
  }

  /** Neither side pays more than it holds, and one of them pays everything. */
  lemma ExchangeIsAffordable(taker: nat, maker: nat, price: Price)
    requires ValidPrice(price)
    ensures var (takerPays, makerPays) := Exchanged(taker, maker, price);
      takerPays <= taker && makerPays <= maker && (takerPays == taker || makerPays == maker)
  {
    var (b, q) := (price.baseAmount, price.quoteAmount);
    if taker <= maker * q / b {
      DivBounds(maker * q, b);
      MulMono(taker, maker * q / b, b);
      DivAtMost(taker * b, maker, q);
    }
  }

  /** The trade is at the maker's price: the taker gives all it has exactly if the maker's offer is worth that much, and
      what changes hands differs from the exact price by the rounding of one of the two amounts, in favour of the one
      whose amount is given. */
  lemma ExchangedAtMakersPrice(taker: nat, maker: nat, price: Price)
    requires ValidPrice(price)
    ensures var (takerPays, makerPays) := Exchanged(taker, maker, price);
      var (given, got) := (takerPays * price.baseAmount, makerPays * price.quoteAmount);
      if taker * price.baseAmount <= maker * price.quoteAmount then
        takerPays == taker && got <= given < got + price.quoteAmount
      else
        makerPays == maker && given <= got < given + price.baseAmount
  {
    var (b, q) := (price.baseAmount, price.quoteAmount);
    ConversionsRoundDown(maker, price);
    ConversionsRoundDown(taker, price);
    var limit := FromBase(maker, price);
    Distribute(limit, 1, b);
    Distribute(FromQuote(taker, price), 1, q);
    if taker <= limit {
      MulMono(taker, limit, b);
    } else {
      MulMono(limit + 1, taker, b);
    }
  }

  /** Nobody trades worse than the own limit: each side gets at least what it gave times its own price, rounded down. */
  lemma LimitPricesAreKept(taker: nat, maker: nat, makerPrice: Price, takerPrice: Price)
    requires ValidPrice(makerPrice) && ValidPrice(takerPrice) && AtLeast(makerPrice, takerPrice.Inverse())
    ensures var (takerPays, makerPays) := Exchanged(taker, maker, makerPrice);
      makerPays >= FromBase(takerPays, takerPrice) && takerPays >= FromBase(makerPays, makerPrice)
  {
    var (takerPays, makerPays) := Exchanged(taker, maker, makerPrice);
    var (b, q) := (makerPrice.baseAmount, makerPrice.quoteAmount);
    if taker <= FromBase(maker, makerPrice) {
      DivBounds(takerPays * b, q);
      DivAtMost(makerPays * q, takerPays, b);
    } else {
      DivBounds(makerPays * q, b);
    }
    assert takerPays * b < (makerPays + 1) * q;
    WorstCase(takerPays, makerPays, b, q, takerPrice.baseAmount, takerPrice.quoteAmount);
  }

  /** If x units at b : q do not make more than y, they do not make more at the worse price d : c either. */
  lemma WorstCase(x: nat, y: nat, b: nat, q: nat, c: nat, d: nat)
    requires b > 0 && q > 0 && c > 0 && x * b < (y + 1) * q && b * c >= d * q
    ensures x * d / c <= y
  {
    MulMono(d * q, b * c, x);
    assert x * d < (y + 1) * c by {
      if x * d >= (y + 1) * c {
        MulMono((y + 1) * c, x * d, q);
        assert false;
      }
    }
    DivBounds(x * d, c);
    if x * d / c > y {
      MulMono(y + 1, x * d / c, c);
    }
  }

  predicate Opposite(m: State, taker: OrderId, maker: OrderId) {
    && taker in m.limits && maker in m.limits
    && m.limits[taker].price.base == m.limits[maker].price.quote
    && m.limits[taker].price.quote == m.limits[maker].price.base
  }

  ghost predicate Prepared(m: State, taker: OrderId, maker: OrderId) {
    Inv(m) && Opposite(m, taker, maker)
  }

  /** The first half of a match; the maker is untouched by it. */
  lemma TakerFilled(m: State, taker: OrderId, maker: OrderId, pays: nat, receives: nat)
    requires Prepared(m, taker, maker) && pays <= m.limits[taker].forSale
    ensures var r := FillLimit(m, taker, pays, receives, false);
      && Inv(r) && SameRules(m, r) && OnlyLimit(m, r, taker)
      && maker in r.limits && r.limits[maker] == m.limits[maker] && maker != taker
      && (taker in r.limits <==> pays < m.limits[taker].forSale)
  {
    hide Net, FillLimit, SameRules, Covered;
    assert ValidLimit(m, m.limits[taker]) && ValidAsset(m, m.limits[taker].price.quote);
    FillLimitInv(m, taker, pays, receives, false);
    FillLimitFlow(m, taker, pays, receives, false, 0);
    var r := FillLimit(m, taker, pays, receives, false);
    assert maker in m.limits - {taker} && (r.limits - {taker})[maker] == (m.limits - {taker})[maker];
  }

  /** The book after a match: the taker is filled first, the maker second, and only the maker is culled. */
  ghost function Matched(m: State, taker: OrderId, maker: OrderId): State
    requires Prepared(m, taker, maker)
  {
    FillLimitInv(m, taker, 0, 0, false);
    FillLimitInv(m, maker, 0, 0, false);
    ExchangeIsAffordable(m.limits[taker].forSale, m.limits[maker].forSale, m.limits[maker].price);
    var (takerPays, makerPays) := Exchanged(m.limits[taker].forSale, m.limits[maker].forSale, m.limits[maker].price);
    ExchangeConserves(m, taker, maker, takerPays, makerPays);
    TakerFilled(m, taker, maker, takerPays, makerPays);
    FillLimit(FillLimit(m, taker, takerPays, makerPays, false), maker, makerPays, takerPays, true)
  }

  lemma ExchangeConserves(m: State, taker: OrderId, maker: OrderId, takerPays: nat, makerPays: nat)
    requires Prepared(m, taker, maker)
    requires takerPays <= m.limits[taker].forSale && makerPays <= m.limits[maker].forSale
    ensures var r := FillLimit(m, taker, takerPays, makerPays, false);
      maker in r.limits && ValidPrice(r.limits[maker].price) && ValidAsset(r, r.limits[maker].price.quote) &&
      Conserves(m, FillLimit(r, maker, makerPays, takerPays, true))
  {
    hide Net, OnlyLimit, SameRules;
    TakerFilled(m, taker, maker, takerPays, makerPays);
    assert ValidLimit(m, m.limits[taker]) && ValidAsset(m, m.limits[taker].price.quote);
    var r := FillLimit(m, taker, takerPays, makerPays, false);
    assert ValidLimit(r, r.limits[maker]) && ValidAsset(r, r.limits[maker].price.quote);
    forall y ensures Net(FillLimit(r, maker, makerPays, takerPays, true), y) == Net(m, y) {
      FillLimitFlow(m, taker, takerPays, makerPays, false, y);
      FillLimitFlow(r, maker, makerPays, takerPays, true, y);
    }
  }

  lemma PreparedFacts(m: State, taker: OrderId, maker: OrderId)
    requires Prepared(m, taker, maker)
    ensures taker in m.limits && maker in m.limits && taker != maker
    ensures ValidPrice(m.limits[taker].price) && ValidPrice(m.limits[maker].price)
    ensures ValidAsset(m, m.limits[taker].price.quote) && ValidAsset(m, m.limits[maker].price.quote)
  {
    hide Covered;
    assert ValidLimit(m, m.limits[taker]) && ValidLimit(m, m.limits[maker]);
  }

  /** What is left of an order that is too small to ask for anything. */
  function Rest(o: LimitOrder, pays: nat): nat
    requires pays <= o.forSale && ValidPrice(o.price)
  {
    if FromBase(o.forSale - pays, o.price) == 0 then o.forSale - pays else 0
  }

  /** What account `a` gets of asset y when the two orders are matched: each seller what the other one gives, less the
      issuer's fee, and the maker's seller the rest of an order that is too small. */
  ghost function MatchGain(m: State, taker: OrderId, maker: OrderId, takerPays: nat, makerPays: nat,
                           a: AccountId, y: AssetId): nat
    requires Prepared(m, taker, maker) && makerPays <= m.limits[maker].forSale
  {
    PreparedFacts(m, taker, maker);
    var o, p := m.limits[taker], m.limits[maker];
    (if a == o.seller && y == o.price.quote then Proceeds(m, o.price.quote, makerPays) else 0)
    + (if a == p.seller && y == p.price.quote then Proceeds(m, p.price.quote, takerPays) else 0)
    + (if a == p.seller && y == p.price.base then Rest(p, makerPays) else 0)
  }

  /** What becomes of the two orders; nothing else in the book changes but fees. */
  ghost predicate OrdersMatched(m: State, taker: OrderId, maker: OrderId, takerPays: nat, makerPays: nat, r: State)
    requires Prepared(m, taker, maker)
    requires takerPays <= m.limits[taker].forSale && makerPays <= m.limits[maker].forSale
  {
    PreparedFacts(m, taker, maker);
    var o, p := m.limits[taker], m.limits[maker];
    && (taker in r.limits <==> takerPays < o.forSale)
    && (taker in r.limits ==> r.limits[taker] == o.(forSale := o.forSale - takerPays, deferredFee := 0))
    && (maker in r.limits <==> makerPays < p.forSale && Rest(p, makerPays) == 0)
    && (maker in r.limits ==> r.limits[maker] == p.(forSale := p.forSale - makerPays, deferredFee := 0))
    && r.limits - {taker, maker} == m.limits - {taker, maker} && r.calls == m.calls && r.settles == m.settles
    && r.assets.Keys == m.assets.Keys
    && (forall x <- m.assets :: r.assets[x] == m.assets[x].(fees := m.assets[x].fees
          + (if x == o.price.quote then MarketFee(m.assets[x], makerPays) else 0)
          + (if x == p.price.quote then MarketFee(m.assets[x], takerPays) else 0)))
  }

  /** Who is paid what in a match, and which fees become due. */
  ghost predicate MatchPaid(m: State, taker: OrderId, maker: OrderId, takerPays: nat, makerPays: nat, r: State)
    requires Prepared(m, taker, maker) && makerPays <= m.limits[maker].forSale
  {
    var o, p := m.limits[taker], m.limits[maker];
    && (forall a, y :: Holding(r, a, y) == Holding(m, a, y) + MatchGain(m, taker, maker, takerPays, makerPays, a, y))
    && (forall a :: Owed(r, a) == Owed(m, a)
          + (if a == o.seller then o.deferredFee else 0) + (if a == p.seller then p.deferredFee else 0))
  }

  /** One account and one asset in the two halves of a match. */
  lemma HalvesPay(m: State, taker: OrderId, maker: OrderId, takerPays: nat, makerPays: nat, a: AccountId, y: AssetId)
    requires Prepared(m, taker, maker)
    requires takerPays <= m.limits[taker].forSale && makerPays <= m.limits[maker].forSale
    ensures var m1 := FillLimit(m, taker, takerPays, makerPays, false);
      && maker in m1.limits && ValidPrice(m1.limits[maker].price) && ValidAsset(m1, m1.limits[maker].price.quote)
      && m1.limits[maker] == m.limits[maker]
      && var r := FillLimit(m1, maker, makerPays, takerPays, true);
      && Holding(r, a, y) == Holding(m, a, y) + MatchGain(m, taker, maker, takerPays, makerPays, a, y)
      && Owed(r, a) == Owed(m, a)
           + (if a == m.limits[taker].seller then m.limits[taker].deferredFee else 0)
           + (if a == m.limits[maker].seller then m.limits[maker].deferredFee else 0)
  {
    hide Inv, FillLimit, Holding, Owed, MarketFee, Proceeds, FromBase, SameRules, Conserves;
    PreparedFacts(m, taker, maker);
    TakerFilled(m, taker, maker, takerPays, makerPays);
    var m1 := FillLimit(m, taker, takerPays, makerPays, false);
    FillLimitInv(m1, maker, makerPays, takerPays, true);
    FillLimitPays(m, taker, takerPays, makerPays, false, a, y);
    FillLimitPays(m1, maker, makerPays, takerPays, true, a, y);
    SameFees(m, m1, m.limits[maker].price.quote, takerPays);
  }

  lemma HalvesMatch(m: State, taker: OrderId, maker: OrderId, takerPays: nat, makerPays: nat)
    requires Prepared(m, taker, maker)
    requires takerPays <= m.limits[taker].forSale && makerPays <= m.limits[maker].forSale
    ensures var m1 := FillLimit(m, taker, takerPays, makerPays, false);
      && maker in m1.limits && ValidPrice(m1.limits[maker].price) && ValidAsset(m1, m1.limits[maker].price.quote)
      && m1.limits[maker] == m.limits[maker]
      && OrdersMatched(m, taker, maker, takerPays, makerPays, FillLimit(m1, maker, makerPays, takerPays, true))
  {
    hide Inv, FillLimit, MarketFee, Proceeds, FromBase, SameRules, Conserves;
    PreparedFacts(m, taker, maker);
    TakerFilled(m, taker, maker, takerPays, makerPays);
    var m1 := FillLimit(m, taker, takerPays, makerPays, false);
    FillLimitInv(m1, maker, makerPays, takerPays, true);
    FillLimitPays(m, taker, takerPays, makerPays, false, 0, 0);
    FillLimitPays(m1, maker, makerPays, takerPays, true, 0, 0);
    SameFees(m, m1, m.limits[maker].price.quote, takerPays);
    OthersStay(m, m1, FillLimit(m1, maker, makerPays, takerPays, true), taker, maker);
    hide OnlyLimit;
  }

  /** The amounts are the exchanged ones; each seller gets what the other one gives. */
  lemma MatchPays(m: State, taker: OrderId, maker: OrderId)
    requires Prepared(m, taker, maker)
    ensures var (takerPays, makerPays) := Exchanged(m.limits[taker].forSale, m.limits[maker].forSale,
                                                    m.limits[maker].price);
      && takerPays <= m.limits[taker].forSale && makerPays <= m.limits[maker].forSale
      && OrdersMatched(m, taker, maker, takerPays, makerPays, Matched(m, taker, maker))
      && MatchPaid(m, taker, maker, takerPays, makerPays, Matched(m, taker, maker))
  {
    hide Prepared, FillLimit, Exchanged, Holding, Owed, MatchGain, OrdersMatched;
    PreparedFacts(m, taker, maker);
    ExchangeIsAffordable(m.limits[taker].forSale, m.limits[maker].forSale, m.limits[maker].price);
    var (takerPays, makerPays) := Exchanged(m.limits[taker].forSale, m.limits[maker].forSale, m.limits[maker].price);
    HalvesMatch(m, taker, maker, takerPays, makerPays);
    var m1 := FillLimit(m, taker, takerPays, makerPays, false);
    var r := FillLimit(m1, maker, makerPays, takerPays, true);
    assert r == Matched(m, taker, maker);
    forall a, y ensures Holding(r, a, y) == Holding(m, a, y) + MatchGain(m, taker, maker, takerPays, makerPays, a, y) {
      HalvesPay(m, taker, maker, takerPays, makerPays, a, y);
    }
    forall a ensures Owed(r, a) == Owed(m, a)
      + (if a == m.limits[taker].seller then m.limits[taker].deferredFee else 0)
      + (if a == m.limits[maker].seller then m.limits[maker].deferredFee else 0)
    {
      HalvesPay(m, taker, maker, takerPays, makerPays, a, 0);
    }
  }

  /** A fee depends on the rules of the asset alone. */
  lemma SameFees(m: State, r: State, x: AssetId, amount: nat)
    requires ValidAsset(m, x) && ValidAsset(r, x) && r.assets[x] == m.assets[x].(fees := r.assets[x].fees)
    ensures Proceeds(r, x, amount) == Proceeds(m, x, amount)
    ensures MarketFee(r.assets[x], amount) == MarketFee(m.assets[x], amount)
  {
  }

  lemma OthersStay(m: State, m1: State, r: State, i: OrderId, j: OrderId)
    requires m1.limits - {i} == m.limits - {i} && r.limits - {j} == m1.limits - {j}
    ensures r.limits - {i, j} == m.limits - {i, j}
    ensures i != j ==> (i in r.limits <==> i in m1.limits) && (i in m1.limits ==> r.limits[i] == m1.limits[i])
  {
    assert r.limits - {i, j} == r.limits - {j} - {i} && m1.limits - {i, j} == m1.limits - {j} - {i};
    assert m1.limits - {i, j} == m1.limits - {i} - {j} && m.limits - {i, j} == m.limits - {i} - {j};
    assert i != j ==> (i in r.limits - {j} <==> i in m1.limits - {j});
    assert i != j && i in m1.limits - {j} ==> (r.limits - {j})[i] == (m1.limits - {j})[i];
  }
}
