/** Expired force settlements: matched against the least collateralized positions, up to a cap per interval. */
module ForceSettlement {
  import opened Common
  import opened Arithmetic
  import opened MapSums
  import opened Market
  import opened PriceIndex
  import opened Matching
  import opened Exchange
  import opened Redemption

  /** How much of an asset may be force settled, by its maximum percentage of supply plus what was settled already. */
  function MaxVolume(a: AssetInfo): nat
    requires a.bit.Some? && a.supply >= 0
  {
    var b := a.bit.value;
    if b.maxVolumePercent == 0 then 0
    else if b.maxVolumePercent == HUNDRED_PERCENT then a.supply + b.forceSettled
    else (a.supply + b.forceSettled) * b.maxVolumePercent / HUNDRED_PERCENT
  }

  /** The cap is the percentage of supply and settled volume together, rounded down. */
  lemma MaxVolumeIs(a: AssetInfo)
    requires a.bit.Some? && a.supply >= 0
    ensures var cap, all := MaxVolume(a), a.supply + a.bit.value.forceSettled;
      cap * HUNDRED_PERCENT <= all * a.bit.value.maxVolumePercent < (cap + 1) * HUNDRED_PERCENT
  {
  }

  /** The positions in `mia`, the least collateralized first. */
  function Collateralization(m: State, mia: AssetId): map<OrderId, Price> {
    map id | id in m.calls && m.calls[id].price.quote == mia :: m.calls[id].SwanPrice()
  }

  /** The first of them owes most for its collateral, and is the one with the lowest id among those that do. */
  lemma LeastCollateralized(m: State, mia: AssetId, id: OrderId, i: OrderId)
    requires IsBest(Collateralization(m, mia), id)
    ensures id in m.calls && m.calls[id].price.quote == mia
    ensures i in m.calls && m.calls[i].price.quote == mia ==>
      var (owes, has, owed, had) := (m.calls[id].debt, m.calls[id].collateral, m.calls[i].debt, m.calls[i].collateral);
      owes * had > owed * has || (owes * had == owed * has && id <= i)
  {
    if i in m.calls && m.calls[i].price.quote == mia {
      BestIsHighest(Collateralization(m, mia), id, i);
    }
  }

  /** Of every unsettled asset no more is held than was issued; the rest may lie in balances of other kinds. */
  ghost predicate NothingForged(m: State) {
    forall x <- m.assets :: Unsettled(m, x) ==> Net(m, x) <= 0
  }

  /** There is always a position to match with: the asset exists, so somebody owes it. */
  lemma SomebodyOwes(m: State, mia: AssetId, sid: OrderId)
    requires Inv(m) && Unsettled(m, mia) && Net(m, mia) <= 0
    requires sid in m.settles && m.settles[sid].asset == mia && m.settles[sid].balance > 0
    ensures Collateralization(m, mia) != map[] && m.assets[mia].supply > 0
    ensures forall i <- Collateralization(m, mia) :: Collateralization(m, mia)[i].baseAmount > 0
  {
    HoldingBound(m, mia, 0, sid);
    hide Net;
    var id := SumPositive(m.calls, DebtIn(mia));
    assert id in Collateralization(m, mia);
    forall i | i in Collateralization(m, mia) ensures Collateralization(m, mia)[i].baseAmount > 0 {
      assert ValidCall(m, m.calls[i]);
    }
  }

  /** What the position buys from the settlement order, within the volume that is left. */
  function Settles(m: State, id: OrderId, sid: OrderId, room: nat): nat
    requires id in m.calls && sid in m.settles
  {
    var offered := if m.settles[sid].balance <= room then m.settles[sid].balance else room;
    if offered <= m.calls[id].debt then offered else m.calls[id].debt
  }

  ghost predicate Pair(m: State, mia: AssetId, id: OrderId, sid: OrderId) {
    && Unsettled(m, mia) && id in m.calls && sid in m.settles
    && m.calls[id].price.quote == mia == m.settles[sid].asset
    && m.calls[id].price.base == m.assets[mia].bit.value.backing
  }

  /** Only supply, fees, balances, and the two orders change. */
  ghost predicate SettledPart(m: State, r: State, mia: AssetId, amount: int) {
    && SameRules(m, r) && r.limits == m.limits
    && (forall x <- m.assets :: r.assets[x].supply == m.assets[x].supply - (if x == mia then amount else 0))
  }

  lemma SettleMatchShape(m: State, mia: AssetId, id: OrderId, sid: OrderId, amount: nat, pays: nat)
    requires Inv(m) && Pair(m, mia, id, sid)
    requires amount <= m.calls[id].debt && amount <= m.settles[sid].balance && pays <= m.calls[id].collateral
    ensures var m1 := FillCall(m, id, pays, amount);
      && sid in m1.settles && amount <= m1.settles[sid].balance && ValidAsset(m1, m.assets[mia].bit.value.backing)
      && var r := FillSettle(m1, sid, amount, pays, m.assets[mia].bit.value.backing);
      && SettledPart(m, r, mia, amount) && r.calls == m1.calls
      && r.settles ==
          (if amount < m.settles[sid].balance
           then m.settles[sid := m.settles[sid].(balance := m.settles[sid].balance - amount)]
           else m.settles - {sid})
  {
    hide Inv, Net, Debt, FillCall, FillSettle;
    var backing := m.assets[mia].bit.value.backing;
    CallFacts(m, id);
    FillCallShape(m, id, pays, amount);
    FillCallInv(m, id, pays, amount);
    var m1 := FillCall(m, id, pays, amount);
    AssetFacts(m1, backing);
    FillSettleFlow(m1, sid, amount, pays, backing, 0);
  }

  lemma SettleMatchConserves(m: State, mia: AssetId, id: OrderId, sid: OrderId, amount: nat, pays: nat)
    requires Inv(m) && Pair(m, mia, id, sid)
    requires amount <= m.calls[id].debt && amount <= m.settles[sid].balance && pays <= m.calls[id].collateral
    ensures var m1 := FillCall(m, id, pays, amount);
      && sid in m1.settles && amount <= m1.settles[sid].balance && ValidAsset(m1, m.assets[mia].bit.value.backing)
      && var r := FillSettle(m1, sid, amount, pays, m.assets[mia].bit.value.backing);
      Conserves(m, r) && Inv(r)
  {
    hide Inv, Net, Debt, FillCall, FillSettle, SettledPart;
    SettleMatchShape(m, mia, id, sid, amount, pays);
    var backing := m.assets[mia].bit.value.backing;
    CallFacts(m, id);
    FillCallInv(m, id, pays, amount);
    var m1 := FillCall(m, id, pays, amount);
    var r := FillSettle(m1, sid, amount, pays, backing);
    forall y ensures Net(r, y) == Net(m, y) {
      FillCallFlow(m, id, pays, amount, y);
      FillCallShape(m, id, pays, amount);
      FillSettleFlow(m1, sid, amount, pays, backing, y);
    }
    FillSettleFlow(m1, sid, amount, pays, backing, 0);
    SettleChangeInv(m1, r, sid);
  }

  /** The book after a position has bought `amount` from a settlement order for `pays` of its collateral. */
  ghost function SettleMatched(m: State, mia: AssetId, id: OrderId, sid: OrderId, amount: nat, pays: nat): State
    requires Inv(m) && Pair(m, mia, id, sid)
    requires amount <= m.calls[id].debt && amount <= m.settles[sid].balance && pays <= m.calls[id].collateral
  {
    CallFacts(m, id);
    SettleMatchShape(m, mia, id, sid, amount, pays);
    FillSettle(FillCall(m, id, pays, amount), sid, amount, pays, m.assets[mia].bit.value.backing)
  }

  /** What account `a` gets of the backing asset in a match: the order's owner what the position pays, less the issuer's
      fee, and the borrower the collateral that is left once the debt is covered. */
  ghost function SettleGain(m: State, mia: AssetId, id: OrderId, sid: OrderId, amount: nat, pays: nat,
                            a: AccountId): nat
    requires Inv(m) && Pair(m, mia, id, sid) && pays <= m.calls[id].collateral
  {
    BackingFacts(m, mia);
    (if a == m.settles[sid].owner then Proceeds(m, m.assets[mia].bit.value.backing, pays) else 0)
    + (if a == m.calls[id].borrower && amount == m.calls[id].debt then m.calls[id].collateral - pays else 0)
  }

  lemma BackingFacts(m: State, mia: AssetId)
    requires Inv(m) && mia in m.assets && m.assets[mia].bit.Some?
    ensures ValidAsset(m, mia) && ValidAsset(m, m.assets[mia].bit.value.backing)
  {
    hide Covered;
    assert ValidAsset(m, mia);
  }

  /** Who is paid what in a match with a settlement order. */
  lemma SettleMatchPays(m: State, mia: AssetId, id: OrderId, sid: OrderId, amount: nat, pays: nat, a: AccountId,
                        y: AssetId)
    requires Inv(m) && Pair(m, mia, id, sid)
    requires amount <= m.calls[id].debt && amount <= m.settles[sid].balance && pays <= m.calls[id].collateral
    ensures var r := SettleMatched(m, mia, id, sid, amount, pays);
      && Holding(r, a, y) == Holding(m, a, y)
           + (if y == m.assets[mia].bit.value.backing then SettleGain(m, mia, id, sid, amount, pays, a) else 0)
      && Owed(r, a) == Owed(m, a)
  {
    hide Inv, FillCall, FillSettle, Holding, Owed, Proceeds, MarketFee;
    var backing := m.assets[mia].bit.value.backing;
    BackingFacts(m, mia);
    CallFacts(m, id);
    SettleMatchShape(m, mia, id, sid, amount, pays);
    FillCallInv(m, id, pays, amount);
    FillCallShape(m, id, pays, amount);
    var m1 := FillCall(m, id, pays, amount);
    FillCallPays(m, id, pays, amount, a, y);
    FillSettlePays(m1, sid, amount, pays, backing, a, y);
    SameProceeds(m, m1, backing, pays);
    SameOwed(m, m1, a);
    SameOwed(m1, SettleMatched(m, mia, id, sid, amount, pays), a);
  }

  lemma SettleChangeInv(m: State, r: State, sid: OrderId)
    requires Inv(m) && sid in m.settles && r.calls == m.calls && r.limits == m.limits && r.assets.Keys == m.assets.Keys
    requires forall x <- m.assets :: r.assets[x] == m.assets[x].(fees := r.assets[x].fees)
    requires r.settles.Keys <= m.settles.Keys && forall i <- r.settles :: r.settles[i].asset == m.settles[i].asset
    ensures Inv(r)
  {
    hide Covered, ValidAsset, ValidLimit, ValidCall, ValidSettle;
    AssetsStayValid(m, r);
    LimitsStayValid(m, r);
    forall i | i in r.calls ensures ValidCall(r, r.calls[i]) { CallStaysValid(m, r, m.calls[i], r.calls[i]); }
    SettlesStayValid(m, r);
    SameDebts(m, r);
  }

  lemma CancelSettleInv(m: State, sid: OrderId)
    requires Inv(m) && sid in m.settles
    ensures var r := CancelSettle(m, sid);
      Inv(r) && Conserves(m, r) && r.assets == m.assets && r.settles == m.settles - {sid}
  {
    hide Inv, Net, CancelSettle;
    var r := CancelSettle(m, sid);
    forall y ensures Net(r, y) == Net(m, y) { CancelSettleNet(m, sid, y); }
    CancelSettleNet(m, sid, 0);
    SettleChangeInv(m, r, sid);
  }

  function SetVolume(m: State, mia: AssetId, volume: nat): State
    requires mia in m.assets && m.assets[mia].bit.Some?
  {
    m.(assets := m.assets[mia := m.assets[mia].(bit := Some(m.assets[mia].bit.value.(forceSettled := volume)))])
  }

  lemma SetVolumeNet(m: State, mia: AssetId, volume: nat, y: AssetId)
    requires mia in m.assets && m.assets[mia].bit.Some?
    ensures Net(SetVolume(m, mia, volume), y) == Net(m, y)
  {
    hide Sum;
    SumUpdate(m.assets, mia, SetVolume(m, mia, volume).assets[mia], FundIn(y));
    SumUpdate(m.assets, mia, SetVolume(m, mia, volume).assets[mia], IssuedIn(y));
  }

  lemma SetVolumeInv(m: State, mia: AssetId, volume: nat)
    requires Inv(m) && mia in m.assets && m.assets[mia].bit.Some?
    ensures Inv(SetVolume(m, mia, volume)) && Conserves(m, SetVolume(m, mia, volume))
  {
    hide Net;
    var r := SetVolume(m, mia, volume);
    forall y ensures Net(r, y) == Net(m, y) { SetVolumeNet(m, mia, volume, y); }
    forall x | x in r.assets ensures ValidAsset(r, x) { assert ValidAsset(m, x) && ValidAsset(m, mia); }
    forall i | i in r.limits ensures ValidLimit(r, r.limits[i]) { assert ValidLimit(m, m.limits[i]); }
    forall i | i in r.calls ensures ValidCall(r, r.calls[i]) { assert ValidCall(m, m.calls[i]); }
    forall i | i in r.settles ensures ValidSettle(r, r.settles[i]) { assert ValidSettle(m, m.settles[i]); }
    forall x | x in r.assets && r.assets[x].bit.Some? && r.assets[x].bit.value.settlement.None?
      ensures r.assets[x].supply == Debt(r, x)
    {
      assert x in m.assets && m.assets[x].supply == Debt(m, x);
    }
  }

  // ----- one order

  /** While one order is being settled: `volume` has been burnt beyond the recorded `start`. */
  ghost predicate Progress(m0: State, m: State, mia: AssetId, volume: nat) {
    && Inv(m) && Conserves(m0, m) && Unsettled(m, mia) && Unsettled(m0, mia)
    && Net(m0, mia) <= 0
    && SettledPart(m0, m, mia, volume - m0.assets[mia].bit.value.forceSettled)
    && m.settles.Keys <= m0.settles.Keys
    && (forall i <- m.settles :: m.settles[i].asset == m0.settles[i].asset && m.settles[i].date == m0.settles[i].date)
  }

  lemma ProgressFacts(m0: State, m: State, mia: AssetId, volume: nat)
    requires Progress(m0, m, mia, volume)
    ensures Inv(m) && Unsettled(m, mia) && Net(m, mia) <= 0 && m.assets[mia].bit.value == m0.assets[mia].bit.value
  {
    hide Net, Inv;
  }

  lemma ProgressStarts(m: State, mia: AssetId)
    requires Inv(m) && Unsettled(m, mia) && Net(m, mia) <= 0
    ensures Progress(m, m, mia, m.assets[mia].bit.value.forceSettled)
  {
    hide Net, Inv;
  }

  lemma ProgressMatch(m0: State, m: State, mia: AssetId, volume: nat, id: OrderId, sid: OrderId, amount: nat, pays: nat)
    requires Progress(m0, m, mia, volume) && Pair(m, mia, id, sid)
    requires amount <= m.calls[id].debt && amount <= m.settles[sid].balance && pays <= m.calls[id].collateral
    ensures m.calls[id].price.quote in m.assets
    ensures var m1 := FillCall(m, id, pays, amount);
      && sid in m1.settles && amount <= m1.settles[sid].balance && ValidAsset(m1, m.assets[mia].bit.value.backing)
      && var r := FillSettle(m1, sid, amount, pays, m.assets[mia].bit.value.backing);
      Progress(m0, r, mia, volume + amount)
  {
    hide Inv, Net, Conserves, FillCall, FillSettle;
    CallFacts(m, id);
    SettleMatchConserves(m, mia, id, sid, amount, pays);
    SettleMatchShape(m, mia, id, sid, amount, pays);
    var r := FillSettle(FillCall(m, id, pays, amount), sid, amount, pays, m.assets[mia].bit.value.backing);
    ConservesTransitive(m0, m, r);
  }

  lemma ProgressCancel(m0: State, m: State, mia: AssetId, volume: nat, sid: OrderId)
    requires Progress(m0, m, mia, volume) && sid in m.settles
    ensures Progress(m0, CancelSettle(m, sid), mia, volume) && sid !in CancelSettle(m, sid).settles
  {
    hide Inv, Net, Conserves, CancelSettle;
    CancelSettleInv(m, sid);
    ConservesTransitive(m0, m, CancelSettle(m, sid));
    CancelKeepsRest(m, sid);
  }

  lemma CancelKeepsRest(m: State, sid: OrderId)
    requires sid in m.settles
    ensures CancelSettle(m, sid).limits == m.limits && CancelSettle(m, sid).calls == m.calls
  {
  }

  /** One match: `pays` of the position's collateral for `amount` of the order. */
  datatype Deal = Deal(id: OrderId, amount: nat, pays: nat)

  /** The match is with the least collateralized position, as large as order, position and the room under the cap allow,
      at the price, and it leaves the position some collateral. */
  ghost predicate DealStep(m: State, mia: AssetId, sid: OrderId, price: Price, room: int, d: Deal, m': State) {
    && Inv(m) && Pair(m, mia, d.id, sid) && IsBest(Collateralization(m, mia), d.id)
    && room > 0 && price.baseAmount > 0
    && d.amount == Settles(m, d.id, sid, room) && d.pays == FromBase(d.amount, price) < m.calls[d.id].collateral
    && m' == SettleMatched(m, mia, d.id, sid, d.amount, d.pays)
  }

  function Bought(deals: seq<Deal>): nat {
    if deals == [] then 0 else Bought(deals[..|deals| - 1]) + deals[|deals| - 1].amount
  }

  /** The matches of one order, through these states of the book. */
  ghost predicate Dealing(m0: State, mia: AssetId, sid: OrderId, price: Price, room: int,
                          states: seq<State>, deals: seq<Deal>, m: State) {
    && |states| == |deals| + 1 && states[0] == m0 && states[|deals|] == m
    && forall i :: 0 <= i < |deals| ==>
         DealStep(states[i], mia, sid, price, room - Bought(deals[..i]), deals[i], states[i + 1])
  }

  lemma DealingStarts(m: State, mia: AssetId, sid: OrderId, price: Price, room: int)
    ensures Dealing(m, mia, sid, price, room, [m], [], m)
  {
  }

  lemma DealingOn(m0: State, mia: AssetId, sid: OrderId, price: Price, room: int,
                  states: seq<State>, deals: seq<Deal>, m: State, d: Deal, m': State)
    requires Dealing(m0, mia, sid, price, room, states, deals, m)
    requires DealStep(m, mia, sid, price, room - Bought(deals), d, m')
    ensures Dealing(m0, mia, sid, price, room, states + [m'], deals + [d], m')
    ensures Bought(deals + [d]) == Bought(deals) + d.amount
  {
    hide DealStep, Bought;
    BoughtMore(deals, d);
    var states', deals' := states + [m'], deals + [d];
    forall i | 0 <= i < |deals'|
      ensures DealStep(states'[i], mia, sid, price, room - Bought(deals'[..i]), deals'[i], states'[i + 1])
    {
      assert deals'[..i] == deals[..i];
      assert i == |deals| ==> deals[..i] == deals;
    }
  }

  lemma BoughtMore(deals: seq<Deal>, d: Deal)
    ensures Bought(deals + [d]) == Bought(deals) + d.amount
  {
    assert (deals + [d])[..|deals|] == deals;
  }

  /** The position that would be next cannot pay for the match out of less than all its collateral. */
  ghost predicate TooThin(m: State, mia: AssetId, sid: OrderId, price: Price, room: int) {
    && sid in m.settles && room > 0 && price.baseAmount > 0
    && exists id :: IsBest(Collateralization(m, mia), id) && id in m.calls && m.calls[id].collateral > 0
         && FromBase(Settles(m, id, sid, room), price) >= m.calls[id].collateral
  }

  /** Which of the ends of an order the least collateralized position brings about. */
  lemma ThinMeans(m: State, mia: AssetId, id: OrderId, sid: OrderId, price: Price, room: nat)
    requires IsBest(Collateralization(m, mia), id) && id in m.calls && sid in m.settles && price.baseAmount > 0
    requires room > 0
    ensures NoCollateral(m, mia) <==> m.calls[id].collateral == 0
    ensures TooThin(m, mia, sid, price, room) <==>
      m.calls[id].collateral > 0 && FromBase(Settles(m, id, sid, room), price) >= m.calls[id].collateral
  {
    hide IsBest, FromBase, Settles, Collateralization;
    forall i | IsBest(Collateralization(m, mia), i) ensures i == id {
      OneBest(Collateralization(m, mia), i, id);
    }
  }

  lemma SettlesFits(m: State, id: OrderId, sid: OrderId, room: nat)
    requires id in m.calls && sid in m.settles
    ensures var amount := Settles(m, id, sid, room);
      && amount <= room && amount <= m.settles[sid].balance && amount <= m.calls[id].debt
      && (amount == room || amount == m.settles[sid].balance || amount == m.calls[id].debt)
  {
  }

  lemma DealIs(m: State, mia: AssetId, sid: OrderId, price: Price, room: int, d: Deal, m': State)
    requires Inv(m) && Pair(m, mia, d.id, sid) && IsBest(Collateralization(m, mia), d.id)
    requires room > 0 && price.baseAmount > 0
    requires d.amount == Settles(m, d.id, sid, room) && d.pays == FromBase(d.amount, price) < m.calls[d.id].collateral
    requires d.amount <= m.calls[d.id].debt && d.amount <= m.settles[sid].balance
    requires m' == SettleMatched(m, mia, d.id, sid, d.amount, d.pays)
    ensures DealStep(m, mia, sid, price, room, d, m')
  {
    hide Inv, IsBest, SettleMatched, FromBase, Settles;
  }

  /** One more match keeps the order within its bounds and adds to the trace. */
  lemma NextDeal(m0: State, m: State, mia: AssetId, sid: OrderId, price: Price, room: int, states: seq<State>,
                 deals: seq<Deal>, volume: nat, d: Deal)
    requires Progress(m0, m, mia, volume) && Dealing(m0, mia, sid, price, room, states, deals, m)
    requires Pair(m, mia, d.id, sid) && IsBest(Collateralization(m, mia), d.id)
    requires room - Bought(deals) > 0 && price.baseAmount > 0
    requires d.amount == Settles(m, d.id, sid, room - Bought(deals))
    requires d.pays == FromBase(d.amount, price) < m.calls[d.id].collateral
    ensures d.amount <= m.calls[d.id].debt && d.amount <= room - Bought(deals) && m.calls[d.id].price.quote in m.assets
    ensures m.calls[d.id].debt > 0 && m.settles[sid].balance > 0 ==> d.amount > 0
    ensures var backing, m1 := m.assets[mia].bit.value.backing, FillCall(m, d.id, d.pays, d.amount);
      && sid in m1.settles && d.amount <= m1.settles[sid].balance && ValidAsset(m1, backing)
      && var r := FillSettle(m1, sid, d.amount, d.pays, backing);
      && Progress(m0, r, mia, volume + d.amount)
      && Dealing(m0, mia, sid, price, room, states + [r], deals + [d], r)
      && Bought(deals + [d]) == Bought(deals) + d.amount
      && (sid in r.settles ==> r.settles[sid].asset == mia && r.settles[sid].balance <= m.settles[sid].balance)
  {
    hide Inv, Net, Progress, Dealing, IsBest, FillCall, FillSettle, FromBase, Settles, SettleMatched, Bought;
    ProgressFacts(m0, m, mia, volume);
    SettlesFits(m, d.id, sid, room - Bought(deals));
    ProgressMatch(m0, m, mia, volume, d.id, sid, d.amount, d.pays);
    SettleMatchShape(m, mia, d.id, sid, d.amount, d.pays);
    MatchedIs(m, mia, d.id, sid, d.amount, d.pays);
    var r := SettleMatched(m, mia, d.id, sid, d.amount, d.pays);
    DealIs(m, mia, sid, price, room - Bought(deals), d, r);
    DealingOn(m0, mia, sid, price, room, states, deals, m, d, r);
  }

  lemma MatchedIs(m: State, mia: AssetId, id: OrderId, sid: OrderId, amount: nat, pays: nat)
    requires Inv(m) && Pair(m, mia, id, sid)
    requires amount <= m.calls[id].debt && amount <= m.settles[sid].balance && pays <= m.calls[id].collateral
    ensures m.calls[id].price.quote in m.assets
    ensures var m1 := FillCall(m, id, pays, amount);
      && sid in m1.settles && amount <= m1.settles[sid].balance && ValidAsset(m1, m.assets[mia].bit.value.backing)
      && SettleMatched(m, mia, id, sid, amount, pays) ==
           FillSettle(m1, sid, amount, pays, m.assets[mia].bit.value.backing)
  {
    hide Inv, FillCall, FillSettle, SettledPart;
    CallFacts(m, id);
    SettleMatchShape(m, mia, id, sid, amount, pays);
  }

  ghost predicate NoCollateral(m: State, mia: AssetId) {
    exists id :: IsBest(Collateralization(m, mia), id) && id in m.calls && m.calls[id].collateral == 0
  }

  /** How settling one order ends, with `m1` the book after the matches: with the order gone or the cap reached; with
      a refund, exactly if nothing is left in it or the next position is too thin; or with a throw, exactly if that
      position has no collateral at all. */
  ghost predicate SettleEnds(m1: State, mia: AssetId, sid: OrderId, price: Price, room: int, refunded: bool,
                             ok: bool, m: State) {
    if room <= 0 || sid !in m1.settles then ok && !refunded && m == m1
    else if m1.settles[sid].balance == 0 || TooThin(m1, mia, sid, price, room) then
      ok && refunded && m == CancelSettle(m1, sid)
    else
      !ok && !refunded && NoCollateral(m1, mia) && m == m1
  }

  /** Settling one order, in full: the matches, the volume they add, and how it ends. */
  ghost predicate OrderSettled(m0: State, mia: AssetId, sid: OrderId, price: Price, cap: nat, states: seq<State>,
                               deals: seq<Deal>, refunded: bool, volume: nat, ok: bool, m: State) {
    && mia in m0.assets && m0.assets[mia].bit.Some? && |states| == |deals| + 1
    && var start := m0.assets[mia].bit.value.forceSettled;
    && Dealing(m0, mia, sid, price, cap - start, states, deals, states[|deals|]) && volume == start + Bought(deals)
    && SettleEnds(states[|deals|], mia, sid, price, cap - volume, refunded, ok, m)
  }

  /** Along the matches the order shrinks by what is bought, and its owner stays. */
  lemma {:induction false} DealsShrink(m0: State, mia: AssetId, sid: OrderId, price: Price, room: int,
                                       states: seq<State>, deals: seq<Deal>, m: State, n: nat)
    requires Dealing(m0, mia, sid, price, room, states, deals, m) && n <= |deals| && sid in m0.settles && room >= 0
    requires mia in m0.assets && m0.assets[mia].bit.Some?
    ensures Bought(deals[..n]) <= room && Bought(deals[..n]) <= m0.settles[sid].balance
    ensures sid in states[n].settles ==>
      states[n].settles[sid] == m0.settles[sid].(balance := m0.settles[sid].balance - Bought(deals[..n]))
    ensures sid !in states[n].settles ==> Bought(deals[..n]) == m0.settles[sid].balance
    ensures mia in states[n].assets && states[n].assets[mia].bit == m0.assets[mia].bit
  {
    hide Inv, IsBest, FromBase, SettleMatched;
    if n > 0 {
      DealsShrink(m0, mia, sid, price, room, states, deals, m, n - 1);
      assert deals[..n][..n - 1] == deals[..n - 1];
      DealShrinks(states[n - 1], mia, sid, price, room - Bought(deals[..n - 1]), deals[n - 1], states[n]);
    }
  }

  lemma DealShrinks(m: State, mia: AssetId, sid: OrderId, price: Price, room: int, d: Deal, m': State)
    requires DealStep(m, mia, sid, price, room, d, m')
    ensures sid in m.settles && d.amount <= room && d.amount <= m.settles[sid].balance
    ensures m'.settles == if d.amount < m.settles[sid].balance
      then m.settles[sid := m.settles[sid].(balance := m.settles[sid].balance - d.amount)] else m.settles - {sid}
    ensures mia in m.assets && mia in m'.assets && m'.assets[mia].bit == m.assets[mia].bit
  {
    hide Inv, IsBest, FromBase, FillCall, FillSettle;
    SettleMatchShape(m, mia, d.id, sid, d.amount, d.pays);
  }

  /** When an order is neither refunded nor thrown at, all of it is settled that fits under the cap. */
  lemma SettlesWhatFits(m0: State, mia: AssetId, sid: OrderId, price: Price, cap: nat, states: seq<State>,
                        deals: seq<Deal>, refunded: bool, volume: nat, ok: bool, m: State)
    requires OrderSettled(m0, mia, sid, price, cap, states, deals, refunded, volume, ok, m) && sid in m0.settles
    requires m0.assets[mia].bit.value.forceSettled <= cap
    ensures var start, balance := m0.assets[mia].bit.value.forceSettled, m0.settles[sid].balance;
      && start <= volume && volume - start <= balance && volume <= cap
      && (ok && !refunded ==> volume - start == if balance <= cap - start then balance else cap - start)
      && (sid in m.settles ==> m.settles[sid] == m0.settles[sid].(balance := balance - (volume - start)))
  {
    hide DealStep, TooThin, NoCollateral;
    var start := m0.assets[mia].bit.value.forceSettled;
    DealsShrink(m0, mia, sid, price, cap - start, states, deals, states[|deals|], |deals|);
    assert deals[..|deals|] == deals;
  }

  /** What account `a` gets of the backing asset in the first n matches. */
  ghost function Gains(m0: State, mia: AssetId, sid: OrderId, price: Price, room: int, states: seq<State>,
                       deals: seq<Deal>, m: State, n: nat, a: AccountId): nat
    requires Dealing(m0, mia, sid, price, room, states, deals, m) && n <= |deals|
  {
    if n == 0 then 0
    else
      assert DealStep(states[n - 1], mia, sid, price, room - Bought(deals[..n - 1]), deals[n - 1], states[n]);
      Gains(m0, mia, sid, price, room, states, deals, m, n - 1, a)
      + SettleGain(states[n - 1], mia, deals[n - 1].id, sid, deals[n - 1].amount, deals[n - 1].pays, a)
  }

  /** Nobody else is paid: the order's owner and the borrowers get their gains of every match, in the backing asset. */
  lemma {:induction false} DealsPay(m0: State, mia: AssetId, sid: OrderId, price: Price, room: int, states: seq<State>,
                                    deals: seq<Deal>, m: State, n: nat, a: AccountId, y: AssetId)
    requires Dealing(m0, mia, sid, price, room, states, deals, m) && n <= |deals| && sid in m0.settles && room >= 0
    requires mia in m0.assets && m0.assets[mia].bit.Some?
    ensures Holding(states[n], a, y) == Holding(m0, a, y)
      + if y == m0.assets[mia].bit.value.backing then Gains(m0, mia, sid, price, room, states, deals, m, n, a) else 0
  {
    hide Inv, IsBest, FromBase, Holding, SettleGain, SettleMatched, Bought;
    if n > 0 {
      DealsPay(m0, mia, sid, price, room, states, deals, m, n - 1, a, y);
      DealsShrink(m0, mia, sid, price, room, states, deals, m, n - 1);
      var d := deals[n - 1];
      assert DealStep(states[n - 1], mia, sid, price, room - Bought(deals[..n - 1]), d, states[n]);
      SettleMatchPays(states[n - 1], mia, d.id, sid, d.amount, d.pays, a, y);
    }
  }

  // ----- the queue of orders, by asset, then date, then id

  predicate Precedes(m: State, i: OrderId, j: OrderId)
    requires i in m.settles && j in m.settles
  {
    var (a, b) := (m.settles[i], m.settles[j]);
    a.asset < b.asset || (a.asset == b.asset && (a.date < b.date || (a.date == b.date && i <= j)))
  }

  /** The orders in assets from `from` on. */
  function Queue(m: State, from: AssetId): set<OrderId> {
    set i | i in m.settles && m.settles[i].asset >= from
  }

  predicate IsNext(m: State, q: set<OrderId>, i: OrderId)
    requires q <= m.settles.Keys
  {
    i in q && forall j <- q :: Precedes(m, i, j)
  }

  lemma {:induction false} NextExists(m: State, q: set<OrderId>)
    requires q <= m.settles.Keys && q != {}
    ensures exists i :: i in q && IsNext(m, q, i)
    decreases |q|
  {
    var p :| p in q;
    var rest := q - {p};
    if rest == {} {
      assert q == {p};
      assert p in q && IsNext(m, q, p);
    } else {
      NextExists(m, rest);
      var i :| i in rest && IsNext(m, rest, i);
      var k := if Precedes(m, p, i) then p else i;
      assert q == rest + {p};
      assert k in q && IsNext(m, q, k);
    }
  }

  // ----- what a whole pass may do to an asset

  /** The volume only grows, stays below the cap unless it was above it already, and is burnt from the supply. */
  ghost predicate Bounded(a: AssetInfo, b: AssetInfo) {
    && b.bit.Some? == a.bit.Some?
    && (a.bit.Some? ==>
          var (f, g) := (a.bit.value.forceSettled, b.bit.value.forceSettled);
          && b.bit.value == a.bit.value.(forceSettled := g)
          && f <= g && b.supply + g == a.supply + f
          && (a.supply >= 0 ==> g == f || g <= MaxVolume(a)))
    && (a.bit.None? ==> b.supply == a.supply)
  }

  predicate Capped(a: AssetInfo) {
    a.bit.Some? && a.supply >= 0 && a.bit.value.forceSettled >= MaxVolume(a)
  }

  /** A due order is left over only where the cap has been reached. The cap is never computed for the core asset. */
  ghost predicate Handled(m: State, o: SettleOrder, now: nat) {
    && o.asset in m.assets && m.assets[o.asset].bit.Some?
    && (o.date > now || o.asset == CORE || Capped(m.assets[o.asset]))
  }

  ghost predicate Pass(m0: State, m: State) {
    && Inv(m) && Conserves(m0, m) && m.assets.Keys == m0.assets.Keys && m.limits == m0.limits
    && (forall x <- m0.assets :: Bounded(m0.assets[x], m.assets[x]))
    && m.settles.Keys <= m0.settles.Keys
    && (forall i <- m.settles :: m.settles[i].asset == m0.settles[i].asset && m.settles[i].date == m0.settles[i].date)
  }

  lemma PassStarts(m: State)
    ensures Inv(m) ==> Pass(m, m)
  {
    hide Net, Inv, MaxVolume;
  }

  lemma PassInv(m0: State, m: State)
    requires Pass(m0, m)
    ensures Inv(m) && Conserves(m0, m) && m.assets.Keys == m0.assets.Keys && m.settles.Keys <= m0.settles.Keys
    ensures forall x <- m0.assets :: Bounded(m0.assets[x], m.assets[x])
  {
    hide Inv, Conserves, Bounded;
  }

  lemma SettleFacts(m: State, sid: OrderId)
    requires Inv(m) && sid in m.settles
    ensures var x := m.settles[sid].asset; x in m.assets && m.assets[x].bit.Some? && ValidBit(x, m.assets[x].bit.value)
  {
    hide Covered;
    assert ValidSettle(m, m.settles[sid]);
    assert ValidAsset(m, m.settles[sid].asset);
  }

  /** Supply and volume change together, so the cap of an asset stays what it was at the start of the pass. */
  lemma CapIsStable(m0: State, m: State, x: AssetId)
    requires NothingForged(m0) && Pass(m0, m) && Unsettled(m, x)
    ensures x in m0.assets && Unsettled(m0, x) && Net(m, x) <= 0 && m.assets[x].supply >= 0 && m0.assets[x].supply >= 0
    ensures MaxVolume(m.assets[x]) == MaxVolume(m0.assets[x])
  {
    hide Net, Inv;
    assert Bounded(m0.assets[x], m.assets[x]);
    SupplyNotNegative(m, x);
    assert Net(m0, x) <= 0;
  }

  lemma PassCancel(m0: State, m: State, sid: OrderId)
    requires Pass(m0, m) && sid in m.settles
    ensures var r := CancelSettle(m, sid); Pass(m0, r) && r.settles == m.settles - {sid} && r.assets == m.assets
  {
    hide Inv, Net, Conserves, CancelSettle, Bounded;
    CancelSettleInv(m, sid);
    CancelKeepsRest(m, sid);
    ConservesTransitive(m0, m, CancelSettle(m, sid));
  }

  /** Recording the volume of one settled order keeps the pass within its bounds. */
  lemma PassSettled(m0: State, b: State, m: State, mia: AssetId, volume: nat)
    requires Pass(m0, b) && Unsettled(b, mia) && b.assets[mia].supply >= 0
    requires Unsettled(m0, mia) && m0.assets[mia].supply >= 0
    requires Progress(b, m, mia, volume) && b.assets[mia].bit.value.forceSettled <= volume
    requires MaxVolume(b.assets[mia]) == MaxVolume(m0.assets[mia])
    requires volume <= MaxVolume(b.assets[mia]) || volume == b.assets[mia].bit.value.forceSettled
    ensures mia in m.assets && m.assets[mia].bit.Some?
    ensures Pass(m0, SetVolume(m, mia, volume)) && Recorded(b, SetVolume(m, mia, volume), mia, volume)
    ensures SetVolume(m, mia, volume).settles == m.settles
  {
    hide Inv, Net, Conserves, MaxVolume, Bounded, SetVolume, Progress, Recorded;
    ProgressFacts(b, m, mia, volume);
    SetVolumeInv(m, mia, volume);
    ProgressRecorded(b, m, mia, volume);
    var r := SetVolume(m, mia, volume);
    ConservesTransitive(m0, b, m);
    ConservesTransitive(m0, m, r);
    RecordedBounds(m0, b, r, mia, volume) by { PassInv(m0, b); }
  }

  lemma ProgressRecorded(b: State, m: State, mia: AssetId, volume: nat)
    requires Progress(b, m, mia, volume)
    ensures mia in m.assets && m.assets[mia].bit.Some? && Conserves(b, m)
    ensures var r := SetVolume(m, mia, volume);
      && Recorded(b, r, mia, volume) && r.settles == m.settles && r.limits == b.limits && r.assets.Keys == b.assets.Keys
    ensures m.settles.Keys <= b.settles.Keys
    ensures forall i <- m.settles :: m.settles[i].asset == b.settles[i].asset && m.settles[i].date == b.settles[i].date
  {
    hide Inv, Net, Conserves;
  }

  /** Every asset but `mia` keeps its supply and its rules; in `mia` the new volume is burnt and recorded. */
  ghost predicate Recorded(b: State, r: State, mia: AssetId, volume: nat) {
    && r.assets.Keys == b.assets.Keys && mia in b.assets && b.assets[mia].bit.Some?
    && (forall x <- b.assets :: x != mia ==> r.assets[x] == b.assets[x].(fees := r.assets[x].fees))
    && r.assets[mia].supply == b.assets[mia].supply - volume + b.assets[mia].bit.value.forceSettled
    && r.assets[mia].bit == Some(b.assets[mia].bit.value.(forceSettled := volume))
  }

  lemma RecordedBounds(m0: State, b: State, r: State, mia: AssetId, volume: nat)
    requires m0.assets.Keys == b.assets.Keys && (forall x <- m0.assets :: Bounded(m0.assets[x], b.assets[x]))
    requires Recorded(b, r, mia, volume) && b.assets[mia].bit.value.forceSettled <= volume
    requires m0.assets[mia].bit.Some? && m0.assets[mia].supply >= 0
    requires volume <= MaxVolume(m0.assets[mia]) || volume == b.assets[mia].bit.value.forceSettled
    ensures forall x <- m0.assets :: Bounded(m0.assets[x], r.assets[x])
  {
    hide MaxVolume;
    forall x | x in m0.assets ensures Bounded(m0.assets[x], r.assets[x]) {
      assert Bounded(m0.assets[x], b.assets[x]);
    }
  }

  /** The assets whose cap has not been reached. */
  function Open(m: State): set<AssetId> {
    set x | x in m.assets && m.assets[x].bit.Some? && m.assets[x].supply >= 0
            && m.assets[x].bit.value.forceSettled < MaxVolume(m.assets[x])
  }

  lemma RecordedCloses(b: State, r: State, mia: AssetId, volume: nat)
    requires Recorded(b, r, mia, volume) && b.assets[mia].supply >= 0 && r.assets[mia].supply >= 0
    requires b.assets[mia].bit.value.forceSettled < MaxVolume(b.assets[mia]) <= volume
    ensures |Open(r)| < |Open(b)|
    ensures r.assets[mia].bit.value.forceSettled >= MaxVolume(r.assets[mia])
  {
    assert MaxVolume(r.assets[mia]) == MaxVolume(b.assets[mia]);
    assert mia in Open(b) && mia !in Open(r);
    SetSmaller(Open(r), Open(b));
  }

  /** What was dealt with stays dealt with while another asset is being settled. */
  lemma HandledStays(b: State, r: State, mia: AssetId, volume: nat, o: SettleOrder, now: nat)
    requires Recorded(b, r, mia, volume) && Handled(b, o, now) && o.asset != mia
    ensures Handled(r, o, now)
  {
  }

  /** The cached cap belongs to the asset it was computed for; before that it is zero, for the core asset. */
  ghost predicate CapOk(m0: State, x: AssetId, cap: nat) {
    (x == CORE && cap == 0) ||
    (x in m0.assets && m0.assets[x].bit.Some? && m0.assets[x].supply >= 0 && cap == MaxVolume(m0.assets[x]))
  }

  /** `Skip`: nothing more can be done for this asset now. */
  datatype Verdict = Threw | Again | Skip

  /** Where the outer loop stands. */
  datatype Place = Place(m: State, current: AssetId, volumeAsset: AssetId, cap: nat)

  /** The order can be settled: its asset is not settled already, it is due, and there is a feed. */
  predicate Settleable(m: State, o: SettleOrder, now: nat) {
    && Unsettled(m, o.asset) && o.date <= now && m.assets[o.asset].bit.value.feed.Some?
    && m.assets[o.asset].supply >= 0 && ValidBit(o.asset, m.assets[o.asset].bit.value)
  }

  /** The cap is computed anew when the asset changes. */
  function CapFor(m: State, o: SettleOrder, volumeAsset: AssetId, cap: nat, now: nat): nat
    requires Settleable(m, o, now)
  {
    if volumeAsset == o.asset then cap else MaxVolume(m.assets[o.asset])
  }

  /** What becomes of the first order of an asset, in full: it is refunded if the asset has been settled or has no feed,
      left if it is not due or the cap is reached, and settled otherwise. */
  ghost predicate Visited(m0: State, sid: OrderId, now: nat, volumeAsset: AssetId, cap: nat, verdict: Verdict,
                          m: State) {
    && sid in m0.settles && m0.settles[sid].asset in m0.assets && m0.assets[m0.settles[sid].asset].bit.Some?
    && var o, b := m0.settles[sid], m0.assets[m0.settles[sid].asset].bit.value;
    if b.settlement.Some? then verdict.Again? && m == CancelSettle(m0, sid)
    else if o.date > now then verdict.Skip? && m == m0
    else if b.feed.None? then verdict.Again? && m == CancelSettle(m0, sid)
    else
      && Settleable(m0, o, now)
      && if b.forceSettled >= CapFor(m0, o, volumeAsset, cap, now) then verdict.Skip? && m == m0
         else exists m1, volume :: SettledAt(m0, sid, CapFor(m0, o, volumeAsset, cap, now), m1, volume, verdict, m)
  }

  /** The order has been settled at the feed less the offset, and the volume recorded. */
  ghost predicate SettledAt(m0: State, sid: OrderId, cap: nat, m1: State, volume: nat, verdict: Verdict, m: State) {
    && sid in m0.settles && m0.settles[sid].asset in m0.assets && m0.assets[m0.settles[sid].asset].bit.Some?
    && var o, b := m0.settles[sid], m0.assets[m0.settles[sid].asset].bit.value;
    && b.feed.Some? && ValidBit(o.asset, b) && o.asset in m1.assets && m1.assets[o.asset].bit.Some?
    && m == SetVolume(m1, o.asset, volume) && !verdict.Skip?
    && exists states, deals, refunded ::
         OrderSettled(m0, o.asset, sid, SettlePrice(o, b), cap, states, deals, refunded, volume, verdict.Again?, m1)
  }

  /** One visit: to the first order of the assets from the current one on. */
  ghost predicate Turn(now: nat, p: Place, sid: OrderId, verdict: Verdict, p': Place) {
    && sid in Queue(p.m, p.current) && IsNext(p.m, Queue(p.m, p.current), sid)
    && Visited(p.m, sid, now, p.volumeAsset, p.cap, verdict, p'.m)
    && var o := p.m.settles[sid];
    && p'.current == (if verdict.Skip? then o.asset + 1 else o.asset)
    && p'.volumeAsset == (if Settleable(p.m, o, now) then o.asset else p.volumeAsset)
    && p'.cap == (if Settleable(p.m, o, now) then CapFor(p.m, o, p.volumeAsset, p.cap, now) else p.cap)
  }

  datatype Stop = Stop(sid: OrderId, verdict: Verdict)

  /** The visits of a whole pass, through these places. Only the last one may throw. */
  ghost predicate Turns(now: nat, places: seq<Place>, visits: seq<Stop>, last: Place) {
    && |places| == |visits| + 1 && places[|visits|] == last
    && (forall i :: 0 <= i < |visits| ==> Turn(now, places[i], visits[i].sid, visits[i].verdict, places[i + 1]))
    && (forall i :: 0 <= i < |visits| - 1 ==> !visits[i].verdict.Threw?)
  }

  lemma TurnsOn(now: nat, places: seq<Place>, visits: seq<Stop>, p: Place, sid: OrderId, verdict: Verdict, p': Place)
    requires Turns(now, places, visits, p) && Turn(now, p, sid, verdict, p')
    requires forall v <- visits :: !v.verdict.Threw?
    ensures Turns(now, places + [p'], visits + [Stop(sid, verdict)], p')
  {
    hide Turn;
  }

  /** A whole pass over the orders, from the first asset on: it ends when no order is left to visit, or with a throw. */
  ghost predicate Expired(m0: State, now: nat, ok: bool, m: State) {
    exists places, visits, last :: PassRuns(m0, now, places, visits, last, ok, m)
  }

  ghost predicate PassRuns(m0: State, now: nat, places: seq<Place>, visits: seq<Stop>, last: Place, ok: bool,
                           m: State) {
    && Turns(now, places, visits, last) && places[0] == Place(m0, 0, CORE, 0) && last.m == m
    && if ok then Queue(m, last.current) == {} && forall v <- visits :: !v.verdict.Threw?
       else visits != [] && visits[|visits| - 1].verdict.Threw?
  }

  lemma DueIsVisited(m0: State, sid: OrderId, now: nat, volumeAsset: AssetId, cap: nat, verdict: Verdict, m: State)
    requires sid in m0.settles && Settleable(m0, m0.settles[sid], now)
    requires var o := m0.settles[sid];
      var cap' := CapFor(m0, o, volumeAsset, cap, now);
      && m0.assets[o.asset].bit.value.forceSettled < cap'
      && exists m1, volume :: SettledAt(m0, sid, cap', m1, volume, verdict, m)
    ensures Visited(m0, sid, now, volumeAsset, cap, verdict, m)
  {
    hide SettledAt, CapFor, ValidBit;
  }

  lemma FeedFacts(x: AssetId, b: BitAsset)
    requires ValidBit(x, b) && b.feed.Some?
    ensures ValidPrice(b.feed.value) && b.offsetPercent <= HUNDRED_PERCENT
  {
  }

  lemma TurnsStart(now: nat, p: Place)
    ensures Turns(now, [p], [], p)
  {
  }

  lemma TurnIs(now: nat, p: Place, sid: OrderId, verdict: Verdict, p': Place)
    requires sid in Queue(p.m, p.current) && IsNext(p.m, Queue(p.m, p.current), sid)
    requires Visited(p.m, sid, now, p.volumeAsset, p.cap, verdict, p'.m)
    requires var o := p.m.settles[sid];
      && p'.current == (if verdict.Skip? then o.asset + 1 else o.asset)
      && p'.volumeAsset == (if Settleable(p.m, o, now) then o.asset else p.volumeAsset)
      && p'.cap == (if Settleable(p.m, o, now) then CapFor(p.m, o, p.volumeAsset, p.cap, now) else p.cap)
    ensures Turn(now, p, sid, verdict, p')
  {
    hide Visited, IsNext, Settleable, CapFor;
  }

  lemma PassIs(m0: State, now: nat, places: seq<Place>, visits: seq<Stop>, last: Place, ok: bool)
    requires Turns(now, places, visits, last) && places != [] && places[0] == Place(m0, 0, CORE, 0)
    requires if ok then Queue(last.m, last.current) == {} && forall v <- visits :: !v.verdict.Threw?
             else visits != [] && visits[|visits| - 1].verdict.Threw?
    ensures Expired(m0, now, ok, last.m)
  {
    hide Turns, Queue;
    assert PassRuns(m0, now, places, visits, last, ok, last.m);
  }

  lemma SettledIs(m0: State, sid: OrderId, cap: nat, m1: State, volume: nat, verdict: Verdict, m: State,
                  states: seq<State>, deals: seq<Deal>, refunded: bool)
    requires sid in m0.settles && m0.settles[sid].asset in m0.assets && m0.assets[m0.settles[sid].asset].bit.Some?
    requires var o, b := m0.settles[sid], m0.assets[m0.settles[sid].asset].bit.value;
      && b.feed.Some? && ValidBit(o.asset, b) && o.asset in m1.assets && m1.assets[o.asset].bit.Some?
      && m == SetVolume(m1, o.asset, volume) && !verdict.Skip?
      && OrderSettled(m0, o.asset, sid, SettlePrice(o, b), cap, states, deals, refunded, volume, verdict.Again?, m1)
    ensures SettledAt(m0, sid, cap, m1, volume, verdict, m)
  {
    hide OrderSettled, ValidBit, SettlePrice, SetVolume;
  }

  class Settlement {
    var m: State

    /** Match one order at a fixed price until it is gone or the cap is reached. Every match makes progress. */
    method SettleOrder(mia: AssetId, sid: OrderId, price: Price, cap: nat)
      returns (volume: nat, ok: bool, ghost states: seq<State>, ghost deals: seq<Deal>, ghost refunded: bool)
      requires Inv(m) && Unsettled(m, mia) && Net(m, mia) <= 0 && sid in m.settles && m.settles[sid].asset == mia
      requires price.base == mia && price.quote == m.assets[mia].bit.value.backing
      requires m.settles[sid].balance > 0 ==> price.baseAmount > 0
      modifies this
      ensures OrderSettled(old(m), mia, sid, price, cap, states, deals, refunded, volume, ok, m)
      ensures Progress(old(m), m, mia, volume)
      ensures old(m).assets[mia].bit.value.forceSettled <= volume
      ensures volume <= cap || volume == old(m).assets[mia].bit.value.forceSettled
      ensures ok ==> sid !in m.settles || volume >= cap
    {
      hide Inv, Net, Progress, Conserves, IsBest, FillCall, FillSettle, CancelSettle;
      hide Dealing, DealStep, SettleMatched, TooThin, NoCollateral, FromBase, Settles;
      volume := m.assets[mia].bit.value.forceSettled;
      ProgressStarts(m, mia);
      ghost var m0, room := m, cap - volume;
      states, deals, refunded := [m], [], false;
      DealingStarts(m, mia, sid, price, room);
      while volume < cap && sid in m.settles
        invariant Progress(m0, m, mia, volume)
        invariant m0.assets[mia].bit.value.forceSettled <= volume
        invariant volume <= cap || volume == m0.assets[mia].bit.value.forceSettled
        invariant sid in m.settles ==> m.settles[sid].asset == mia && m.settles[sid].balance <= m0.settles[sid].balance
        invariant Dealing(m0, mia, sid, price, room, states, deals, m)
        invariant |states| == |deals| + 1 && states[|deals|] == m && room - Bought(deals) == cap - volume
        decreases cap - volume
      {
        ProgressFacts(m0, m, mia, volume);
        if m.settles[sid].balance == 0 {
          ProgressCancel(m0, m, mia, volume, sid);
          m := CancelSettle(m, sid);
          return volume, true, states, deals, true;
        }
        SomebodyOwes(m, mia, sid);
        BestOf(Collateralization(m, mia));
        var id :| id in Collateralization(m, mia) && IsBest(Collateralization(m, mia), id);
        CallFacts(m, id);
        var o := m.calls[id];
        ThinMeans(m, mia, id, sid, price, cap - volume);
        if o.collateral == 0 { return volume, false, states, deals, false; }
        var amount := Settles(m, id, sid, cap - volume);
        var pays := FromBase(amount, price);
        if pays >= o.collateral {
          ProgressCancel(m0, m, mia, volume, sid);
          m := CancelSettle(m, sid);
          return volume, true, states, deals, true;
        }
        NextDeal(m0, m, mia, sid, price, room, states, deals, volume, Deal(id, amount, pays));
        m := FillSettle(FillCall(m, id, pays, amount), sid, amount, pays, m.assets[mia].bit.value.backing);
        states, deals := states + [m], deals + [Deal(id, amount, pays)];
        volume := volume + amount;
      }
      return volume, true, states, deals, false;
    }

    /** Settle an order that is due, and record the volume. */
    method SettleDue(sid: OrderId, cap: nat, ghost m0: State) returns (verdict: Verdict)
      requires NothingForged(m0) && Pass(m0, m) && sid in m.settles && Unsettled(m, m.settles[sid].asset)
      requires var a := m.assets[m.settles[sid].asset];
        && a.bit.value.feed.Some? && a.supply >= 0 && a.bit.value.forceSettled < cap == MaxVolume(a)
      modifies this
      ensures !verdict.Skip? && exists m1, volume :: SettledAt(old(m), sid, cap, m1, volume, verdict, m)
      ensures Pass(m0, m) && m.settles.Keys <= old(m).settles.Keys
      ensures verdict.Again? && sid in m.settles ==>
        |Open(m)| < |Open(old(m))| && m.assets.Keys == old(m).assets.Keys && m.settles[sid].asset in m.assets
        && Capped(m.assets[m.settles[sid].asset])
      ensures exists volume :: Recorded(old(m), m, old(m).settles[sid].asset, volume)
    {
      hide Inv, Net, Conserves, Pass, NothingForged, MaxVolume, Progress, FromBase, Recorded, Open, SetVolume,
           SettlePrice, OrderSettled, ValidBit, SettledAt;
      PassInv(m0, m);
      SettleFacts(m, sid);
      CapIsStable(m0, m, m.settles[sid].asset);
      var o := m.settles[sid];
      var b := m.assets[o.asset].bit.value;
      FeedFacts(o.asset, b);
      var price := SettlePrice(o, b);
      ghost var before, states, deals, refunded := m, [], [], false;
      var volume, settled;
      volume, settled, states, deals, refunded := SettleOrder(o.asset, sid, price, cap);
      ghost var m1 := m;
      PassSettled(m0, before, m, o.asset, volume);
      ProgressRecorded(before, m, o.asset, volume);
      m := SetVolume(m, o.asset, volume);
      verdict := if settled then Again else Threw;
      SettledIs(before, sid, cap, m1, volume, verdict, m, states, deals, refunded);
      PassInv(m0, m);
      if settled && sid in m.settles {
        SupplyNotNegative(m, o.asset);
        RecordedCloses(before, m, o.asset, volume);
      }
    }

    /** Deal with the first order of an asset. */
    method Visit(sid: OrderId, now: nat, volumeAsset: AssetId, cap: nat, ghost m0: State)
      returns (verdict: Verdict, volumeAsset': AssetId, cap': nat)
      requires NothingForged(m0) && Pass(m0, m) && sid in m.settles && CapOk(m0, volumeAsset, cap)
      modifies this
      ensures Visited(old(m), sid, now, volumeAsset, cap, verdict, m)
      ensures var o := old(m).settles[sid];
        && volumeAsset' == (if Settleable(old(m), o, now) then o.asset else volumeAsset)
        && cap' == (if Settleable(old(m), o, now) then CapFor(old(m), o, volumeAsset, cap, now) else cap)
      ensures Pass(m0, m) && CapOk(m0, volumeAsset', cap')
      ensures m.settles.Keys <= old(m).settles.Keys
      ensures verdict.Skip? ==> m == old(m) && Handled(m, m.settles[sid], now)
      ensures verdict.Again? && sid in m.settles ==>
        |Open(m)| < |Open(old(m))| && Handled(m, m.settles[sid], now)
      ensures m.assets == old(m).assets || exists volume :: Recorded(old(m), m, old(m).settles[sid].asset, volume)
    {
      hide Inv, Net, Conserves, Pass, NothingForged, MaxVolume, CancelSettle, Progress, FromBase, Recorded, Open,
           SetVolume, SettlePrice, SettledAt, ValidBit;
      volumeAsset', cap' := volumeAsset, cap;
      PassInv(m0, m);
      SettleFacts(m, sid);
      var o := m.settles[sid];
      var b := m.assets[o.asset].bit.value;
      if b.settlement.Some? {
        PassCancel(m0, m, sid);
        m := CancelSettle(m, sid);
        return Again, volumeAsset', cap';
      }
      if o.date > now { return Skip, volumeAsset', cap'; }
      if b.feed.None? {
        PassCancel(m0, m, sid);
        m := CancelSettle(m, sid);
        return Again, volumeAsset', cap';
      }
      CapIsStable(m0, m, o.asset);
      if volumeAsset' != o.asset { volumeAsset', cap' := o.asset, MaxVolume(m.assets[o.asset]); }
      if b.forceSettled >= cap' { return Skip, volumeAsset', cap'; }

      ghost var before := m;
      verdict := SettleDue(sid, cap', m0);
      DueIsVisited(before, sid, now, volumeAsset, cap, verdict, m);
    }

    /** Go through the assets in order and settle what is due, until every asset is done or capped. */
    method ClearExpired(now: nat) returns (ok: bool)
      requires Inv(m) && NothingForged(m)
      modifies this
      ensures Inv(m) && Conserves(old(m), m) && m.assets.Keys == old(m).assets.Keys
      ensures forall x <- old(m).assets :: Bounded(old(m).assets[x], m.assets[x])
      ensures ok ==> forall i <- m.settles :: Handled(m, m.settles[i], now)
      ensures Expired(old(m), now, ok, m)
    {
      hide Inv, Net, Conserves, Pass, Bounded, Handled, NothingForged, Precedes, MaxVolume, Recorded, Open, CapOk;
      hide Turns, IsNext, Visited;
      ghost var m0 := m;
      PassStarts(m);
      CapOkStarts(m0);
      var current: AssetId, volumeAsset, cap := 0, CORE, 0;
      ghost var places, visits: seq<Stop> := [Place(m, 0, CORE, 0)], [];
      TurnsStart(now, places[0]);
      while Queue(m, current) != {}
        invariant Pass(m0, m) && CapOk(m0, volumeAsset, cap)
        invariant Passed(m, current, now)
        invariant Turns(now, places, visits, Place(m, current, volumeAsset, cap))
        invariant places != [] && places[0] == Place(m0, 0, CORE, 0) && forall v <- visits :: !v.verdict.Threw?
        decreases |Queue(m, current)|, |Open(m)|
      {
        var queue := Queue(m, current);
        NextExists(m, queue);
        var sid :| sid in queue && IsNext(m, queue, sid);
        ghost var place := Place(m, current, volumeAsset, cap);
        ghost var before, from := m, current;
        PassedUpTo(m, current, sid, now);
        current := m.settles[sid].asset;
        var verdict;
        verdict, volumeAsset, cap := Visit(sid, now, volumeAsset, cap, m0);
        PassInv(m0, m);
        ghost var next := Place(m, if verdict.Skip? then current + 1 else current, volumeAsset, cap);
        TurnIs(now, place, sid, verdict, next);
        TurnsOn(now, places, visits, place, sid, verdict, next);
        places, visits := places + [next], visits + [Stop(sid, verdict)];
        if verdict.Threw? {
          PassIs(m0, now, places, visits, next, false);
          return false;
        }
        if verdict.Skip? {
          PassedAsset(m, from, sid, now);
          current := current + 1;
        } else {
          PassedStays(m0, before, m, sid, now);
        }
        QueueShrinks(m0, before, m, from, current, sid);
      }
      PassInv(m0, m);
      AllPassed(m, current, now);
      PassIs(m0, now, places, visits, Place(m, current, volumeAsset, cap), true);
      return true;
    }
  }

  /** The feed price, less the offset; the order pays its balance for it. */
  function SettlePrice(o: SettleOrder, b: BitAsset): (p: Price)
    requires b.feed.Some? && ValidPrice(b.feed.value) && b.offsetPercent <= HUNDRED_PERCENT
    ensures p.base == o.asset && p.quote == b.backing && p.baseAmount == o.balance
  {
    var receives := FromBase(o.balance, b.feed.value);
    Price(o.asset, o.balance, b.backing, receives * (HUNDRED_PERCENT - b.offsetPercent) / HUNDRED_PERCENT)
  }

  /** What an order gets at most: its balance at the feed price, less the offset, each rounded down. */
  lemma SettlePriceIs(o: SettleOrder, b: BitAsset)
    requires b.feed.Some? && ValidPrice(b.feed.value) && b.offsetPercent <= HUNDRED_PERCENT
    ensures var p, full := SettlePrice(o, b), FromBase(o.balance, b.feed.value);
      p.quoteAmount * HUNDRED_PERCENT <= full * (HUNDRED_PERCENT - b.offsetPercent)
        < (p.quoteAmount + 1) * HUNDRED_PERCENT
  {
    hide FromBase;
    var full := FromBase(o.balance, b.feed.value);
    DivBounds(full * (HUNDRED_PERCENT - b.offsetPercent), HUNDRED_PERCENT);
  }

  /** All orders in assets below `current` have been dealt with. */
  ghost predicate Passed(m: State, current: AssetId, now: nat) {
    forall i <- m.settles :: m.settles[i].asset < current ==> Handled(m, m.settles[i], now)
  }

  lemma PassedUpTo(m: State, from: AssetId, sid: OrderId, now: nat)
    requires Passed(m, from, now) && sid in Queue(m, from) && IsNext(m, Queue(m, from), sid)
    ensures Passed(m, m.settles[sid].asset, now)
  {
    hide Handled;
    forall i | i in m.settles && m.settles[i].asset < m.settles[sid].asset ensures Handled(m, m.settles[i], now) {
      assert i in Queue(m, from) ==> Precedes(m, sid, i);
    }
  }

  /** If the first order of an asset cannot be settled now, no order of that asset can. */
  lemma PassedAsset(m: State, from: AssetId, sid: OrderId, now: nat)
    requires sid in Queue(m, from) && IsNext(m, Queue(m, from), sid) && Handled(m, m.settles[sid], now)
    requires Passed(m, m.settles[sid].asset, now)
    ensures Passed(m, m.settles[sid].asset + 1, now)
  {
    forall i | i in m.settles && m.settles[i].asset < m.settles[sid].asset + 1 ensures Handled(m, m.settles[i], now) {
      if m.settles[i].asset == m.settles[sid].asset {
        assert Precedes(m, sid, i);
      }
    }
  }

  lemma SameOrders(m0: State, b: State, m: State, i: OrderId)
    requires Pass(m0, b) && Pass(m0, m) && i in m.settles && i in b.settles
    ensures m.settles[i].asset == b.settles[i].asset && m.settles[i].date == b.settles[i].date
  {
    hide Inv, Conserves, Bounded;
  }

  lemma PassedStays(m0: State, b: State, m: State, sid: OrderId, now: nat)
    requires Pass(m0, b) && Pass(m0, m) && sid in b.settles && m.settles.Keys <= b.settles.Keys
    requires Passed(b, b.settles[sid].asset, now)
    requires m.assets == b.assets || exists volume :: Recorded(b, m, b.settles[sid].asset, volume)
    ensures Passed(m, b.settles[sid].asset, now)
  {
    hide Pass, Recorded;
    var mia := b.settles[sid].asset;
    forall i | i in m.settles && m.settles[i].asset < mia ensures Handled(m, m.settles[i], now) {
      SameOrders(m0, b, m, i);
      assert Handled(b, b.settles[i], now);
      if m.assets != b.assets {
        var volume :| Recorded(b, m, mia, volume);
        HandledStays(b, m, mia, volume, b.settles[i], now);
      }
    }
  }

  lemma QueueShrinks(m0: State, b: State, m: State, from: AssetId, to: AssetId, sid: OrderId)
    requires Pass(m0, b) && Pass(m0, m) && m.settles.Keys <= b.settles.Keys && sid in Queue(b, from)
    requires from <= b.settles[sid].asset <= to
    ensures |Queue(m, to)| <= |Queue(b, from)|
    ensures sid !in m.settles || m.settles[sid].asset < to ==> |Queue(m, to)| < |Queue(b, from)|
  {
    hide Pass;
    forall i | i in Queue(m, to) ensures i in Queue(b, from) {
      SameOrders(m0, b, m, i);
    }
    SetSmaller(Queue(m, to), Queue(b, from));
  }

  lemma CapOkStarts(m0: State)
    ensures CapOk(m0, CORE, 0)
  {
  }

  lemma AllPassed(m: State, current: AssetId, now: nat)
    requires Passed(m, current, now) && Queue(m, current) == {}
    ensures forall i <- m.settles :: Handled(m, m.settles[i], now)
  {
    hide Handled;
    forall i | i in m.settles ensures Handled(m, m.settles[i], now) {
      assert i !in Queue(m, current);
    }
  }
}
