/** Where the core supply is: fee payout, cashback, block pay, the maintenance budget, fee-backed assets, migration. */
module Supply {
  import opened Common
  import opened Arithmetic
  import opened MapSums
  import V = Vesting

  const CYCLE_RATE := 1775
  const CYCLE_RATE_BASE := 0x1_0000_0000

  /** A percentage of an amount, rounded down. */
  function CutFee(amount: nat, percent: nat): nat {
    if amount == 0 || percent == 0 then 0
    else if percent == HUNDRED_PERCENT then amount
    else amount * percent / HUNDRED_PERCENT
  }

  /** A cut is the percentage of the amount, less than one unit short of it. */
  lemma CutRoundsDown(amount: nat, percent: nat)
    ensures CutFee(amount, percent) * HUNDRED_PERCENT <= amount * percent
      < (CutFee(amount, percent) + 1) * HUNDRED_PERCENT
  {
    DivBounds(amount * percent, HUNDRED_PERCENT);
  }

  /** Cuts whose percentages add up to at most a hundred never exceed the amount. */
  lemma CutsFit(amount: nat, p: nat, q: nat)
    requires p + q <= HUNDRED_PERCENT
    ensures CutFee(amount, p) + CutFee(amount, q) <= amount
  {
    var (x, y) := (amount * p, amount * q);
    assert x + y == amount * (p + q) <= amount * HUNDRED_PERCENT;
    assert x / HUNDRED_PERCENT * HUNDRED_PERCENT <= x && y / HUNDRED_PERCENT * HUNDRED_PERCENT <= y;
  }

  /** How an account's fees are shared out. */
  datatype FeePolicy = FeePolicy(networkPercent: nat, lifetimePercent: nat, referrerPercent: nat,
                                 lifetimeReferrer: nat, referrer: nat, registrar: nat)

  predicate ValidPolicy(p: FeePolicy) {
    p.networkPercent + p.lifetimePercent <= HUNDRED_PERCENT && p.referrerPercent <= HUNDRED_PERCENT
  }

  /** A referrer who is no longer a member is replaced, for good, by the lifetime referrer. */
  function CurrentPolicy(p: FeePolicy, isBasic: nat -> bool): FeePolicy {
    if isBasic(p.referrer) then p.(referrer := p.lifetimeReferrer) else p
  }

  datatype Split = Split(network: nat, lifetime: nat, referrer: nat, registrar: nat)

  function SplitFee(total: nat, p: FeePolicy): (s: Split)
    requires ValidPolicy(p)
    ensures s.network + s.lifetime + s.referrer + s.registrar == total
  {
    CutsFit(total, p.networkPercent, p.lifetimePercent);
    var network, lifetime := CutFee(total, p.networkPercent), CutFee(total, p.lifetimePercent);
    var referral := total - network - lifetime;
    CutsFit(referral, p.referrerPercent, 0);
    var referrer := CutFee(referral, p.referrerPercent);
    Split(network, lifetime, referrer, referral - referrer)
  }

  /** Network and lifetime referrer have their percentages of the whole fee, the referrer has his of what is left after
      them, and the registrar the rest; each is rounded down. */
  lemma SplitIs(total: nat, p: FeePolicy)
    requires ValidPolicy(p)
    ensures var s := SplitFee(total, p); var left := total - s.network - s.lifetime;
      && s.network * HUNDRED_PERCENT <= total * p.networkPercent < (s.network + 1) * HUNDRED_PERCENT
      && s.lifetime * HUNDRED_PERCENT <= total * p.lifetimePercent < (s.lifetime + 1) * HUNDRED_PERCENT
      && s.referrer * HUNDRED_PERCENT <= left * p.referrerPercent < (s.referrer + 1) * HUNDRED_PERCENT
      && s.registrar == left - s.referrer
  {
    var s := SplitFee(total, p);
    CutRoundsDown(total, p.networkPercent);
    CutRoundsDown(total, p.lifetimePercent);
    CutRoundsDown(total - s.network - s.lifetime, p.referrerPercent);
  }

  /** Once replaced, the referrer stays; a member is never replaced. */
  lemma ReferrerSettles(p: FeePolicy, isBasic: nat -> bool)
    ensures var q := CurrentPolicy(p, isBasic);
      && q.(referrer := p.referrer) == p
      && (if isBasic(p.referrer) then q.referrer == p.lifetimeReferrer else q == p)
      && CurrentPolicy(q, isBasic) == q
  {
  }

  // ----- the budget of a maintenance interval

  /** What may be spent: a fixed rate of the reserve per second, rounded up, and never more than the reserve. Nothing
      in the first interval. */
  function TotalBudget(reserve: int, lastBudgetTime: nat, now: nat): int {
    if lastBudgetTime == 0 || now <= lastBudgetTime then 0
    else
      var base: nat := if reserve < 0 then 0 else reserve;
      var budget := (base * (now - lastBudgetTime) * CYCLE_RATE + (CYCLE_RATE_BASE - 1)) / CYCLE_RATE_BASE;
      if budget < reserve then budget else reserve
  }

  /** The budget is the rate times reserve and elapsed time, rounded up, unless the reserve is smaller; there is none in
      the first interval. */
  lemma TotalBudgetIs(reserve: int, lastBudgetTime: nat, now: nat)
    requires reserve >= 0
    ensures var b, elapsed := TotalBudget(reserve, lastBudgetTime, now), now - lastBudgetTime;
      if lastBudgetTime == 0 || elapsed <= 0 then b == 0
      else
        && b <= reserve
        && (b < reserve ==> reserve * elapsed * CYCLE_RATE <= b * CYCLE_RATE_BASE)
        && (b > 0 ==> (b - 1) * CYCLE_RATE_BASE < reserve * elapsed * CYCLE_RATE)
  {
    if 0 < lastBudgetTime < now {
      var n: nat := Product(Product(reserve, now - lastBudgetTime), CYCLE_RATE);
      assert n == reserve * (now - lastBudgetTime) * CYCLE_RATE;
      var budget := (n + (CYCLE_RATE_BASE - 1)) / CYCLE_RATE_BASE;
      assert (budget - 1) * CYCLE_RATE_BASE < n <= budget * CYCLE_RATE_BASE;
    }
  }

  /** The budget stays within the reserve, and a reserve that is not empty is never out of reach. */
  lemma BudgetWithinReserve(reserve: int, lastBudgetTime: nat, now: nat)
    requires reserve >= 0
    ensures 0 <= TotalBudget(reserve, lastBudgetTime, now) <= reserve
    ensures reserve > 0 && 0 < lastBudgetTime < now ==> TotalBudget(reserve, lastBudgetTime, now) > 0
  {
    if 0 < lastBudgetTime < now {
      var n := Product(reserve, now - lastBudgetTime);
      assert n == reserve * (now - lastBudgetTime);
      var k := n * CYCLE_RATE;
      assert k >= 0;
      if reserve > 0 {
        ProductPositive(reserve, now - lastBudgetTime);
        assert k >= CYCLE_RATE;
      }
    }
  }

  function Product(a: nat, b: nat): nat { a * b }

  lemma ProductPositive(a: nat, b: nat)
    requires a > 0 && b > 0
    ensures Product(a, b) > 0
  {
  }

  // ----- vesting balances as purses

  /** A vesting balance; only the coin-days-destroyed kind takes deposits. */
  datatype VestingBalance = Coins(owner: nat, cdd: V.Cdd) | Lines(owner: nat, amount: nat) {
    function Held(): nat { if Coins? then cdd.balance else amount }
  }

  /** The vesting balances, the next id, and the balance each account's cashback goes to. */
  datatype Purses = Purses(balances: map<nat, VestingBalance>, next: nat, cashback: map<nat, nat>)

  ghost predicate Fit(p: Purses, now: nat) {
    && (forall id <- p.balances :: id < p.next && (p.balances[id].Coins? ==> p.balances[id].cdd.last <= now))
    && (forall a <- p.cashback :: p.cashback[a] in p.balances)
  }

  ghost function HeldIn(): (nat, VestingBalance) -> int { (id, b: VestingBalance) => b.Held() }
  ghost function HeldBy(owner: nat): (nat, VestingBalance) -> int {
    (id, b: VestingBalance) => if b.owner == owner then b.Held() else 0
  }
  ghost function Total(p: Purses): int { Sum(p.balances, HeldIn()) }
  ghost function Owned(p: Purses, account: nat): int { Sum(p.balances, HeldBy(account)) }

  /** The account's vesting balances hold that much more, and nobody else's changed. */
  ghost predicate Paid(p: Purses, q: Purses, account: nat, amount: nat) {
    && Total(q) == Total(p) + amount
    && forall a :: Owned(q, a) == Owned(p, a) + if a == account then amount else 0
  }

  predicate Usable(p: Purses, id: Option<nat>, seconds: nat, owner: nat) {
    && id.Some? && id.value in p.balances
    && var b := p.balances[id.value];
       b.owner == owner && b.Coins? && b.cdd.vestingSeconds == seconds
  }

  function Topped(b: VestingBalance, now: nat, amount: nat, requireVesting: bool): VestingBalance
    requires b.Coins? && b.cdd.last <= now
  {
    b.(cdd := if requireVesting then V.Deposit(b.cdd, now, amount) else V.DepositVested(b.cdd, now, amount))
  }

  /** Into the given vesting balance if it fits owner, policy and period; into a new one otherwise. */
  function LazyDeposit(p: Purses, now: nat, id: Option<nat>, amount: nat, seconds: nat, owner: nat,
                       requireVesting: bool)
    : (Purses, Option<nat>)
    requires Fit(p, now)
  {
    if amount == 0 then (p, None)
    else if Usable(p, id, seconds, owner) then
      (p.(balances := p.balances[id.value := Topped(p.balances[id.value], now, amount, requireVesting)]), None)
    else
      var opening := Coins(owner, V.Created(amount, seconds, now, requireVesting).v);
      (p.(balances := p.balances[p.next := opening], next := p.next + 1), Some(p.next))
  }

  lemma PutPays(p: Purses, id: nat, b: VestingBalance, amount: nat)
    requires b.Held() == amount + if id in p.balances then p.balances[id].Held() else 0
    requires id in p.balances ==> p.balances[id].owner == b.owner
    ensures Paid(p, p.(balances := p.balances[id := b]), b.owner, amount)
  {
    SumUpdate(p.balances, id, b, HeldIn());
    forall a
      ensures Sum(p.balances[id := b], HeldBy(a)) == Sum(p.balances, HeldBy(a)) + if a == b.owner then amount else 0
    {
      SumUpdate(p.balances, id, b, HeldBy(a));
    }
  }

  /** Exactly the owner is paid, exactly the amount, and a new balance is opened only if the given one does not fit. */
  lemma LazyDepositPays(p: Purses, now: nat, id: Option<nat>, amount: nat, seconds: nat, owner: nat,
                        requireVesting: bool)
    requires Fit(p, now)
    ensures var (q, created) := LazyDeposit(p, now, id, amount, seconds, owner, requireVesting);
      && Fit(q, now) && Paid(p, q, owner, amount) && q.cashback == p.cashback
      && (created.Some? <==> amount > 0 && !Usable(p, id, seconds, owner))
      && (created.Some? ==> created.value !in p.balances && Usable(q, created, seconds, owner))
  {
    hide V.Earned;
    if amount > 0 {
      if Usable(p, id, seconds, owner) {
        PutPays(p, id.value, Topped(p.balances[id.value], now, amount, requireVesting), amount);
      } else {
        var opening := Coins(owner, V.Created(amount, seconds, now, requireVesting).v);
        PutPays(p, p.next, opening, amount);
        var q := p.(balances := p.balances[p.next := opening]);
        assert Paid(p, q.(next := p.next + 1), owner, amount);
      }
    }
  }

  /** A new purse is opened exactly if there is something to pay and no given purse of the owner takes deposits under
      that period; whichever it goes to is one that does. */
  lemma OpensIfUnfit(p: Purses, now: nat, id: Option<nat>, amount: nat, seconds: nat, owner: nat, requireVesting: bool)
    requires Fit(p, now)
    ensures var (q, created) := LazyDeposit(p, now, id, amount, seconds, owner, requireVesting);
      && (created.None? <==>
            amount == 0 || (id.Some? && id.value in p.balances && Takes(p.balances[id.value], seconds, owner)))
      && (amount > 0 ==>
            && Target(id, created).Some? && Target(id, created).value in q.balances
            && Takes(q.balances[Target(id, created).value], seconds, owner))
  {
    hide V.Earned;
  }

  predicate Takes(b: VestingBalance, seconds: nat, owner: nat) {
    b.Coins? && b.owner == owner && b.cdd.vestingSeconds == seconds
  }

  /** The purse the amount went into. */
  function Target(id: Option<nat>, created: Option<nat>): Option<nat> {
    if created.Some? then created else id
  }

  /** A deposit that has to vest adds no coin-seconds; any other brings the full vesting period of its coins. What was
      earned before stays earned. */
  lemma DepositVests(p: Purses, now: nat, id: Option<nat>, amount: nat, seconds: nat, owner: nat, requireVesting: bool)
    requires Fit(p, now) && amount > 0
    ensures var (q, created) := LazyDeposit(p, now, id, amount, seconds, owner, requireVesting);
      var to := Target(id, created);
      && to.Some? && to.value in q.balances && q.balances[to.value].Coins?
      && (created.None? ==>
          to.value in p.balances && p.balances[to.value].Coins? && p.balances[to.value].cdd.last <= now)
      && q.balances - {to.value} == p.balances - {to.value}
      && var before := if created.Some? then 0 else V.Earned(p.balances[to.value].cdd, now);
      var brought := if requireVesting then 0
        else V.CoinSeconds(amount, if created.None? && seconds == 0 then 1 else seconds);
      && q.balances[to.value].cdd.last == now && q.balances[to.value].cdd.earned == before + brought
  {
    hide V.Earned;
    var (q, created) := LazyDeposit(p, now, id, amount, seconds, owner, requireVesting);
    if created.None? {
      assert q.balances - {id.value} == p.balances - {id.value};
    } else {
      assert q.balances - {p.next} == p.balances - {p.next};
    }
  }

  const COMMITTEE_ACCOUNT := 0
  const WITNESS_ACCOUNT := 1
  const RELAXED_COMMITTEE_ACCOUNT := 2
  const NULL_ACCOUNT := 3
  const TEMP_ACCOUNT := 4

  /** The accounts of the chain itself. */
  predicate IsChainAccount(account: nat) {
    || account == COMMITTEE_ACCOUNT || account == WITNESS_ACCOUNT || account == RELAXED_COMMITTEE_ACCOUNT
    || account == NULL_ACCOUNT || account == TEMP_ACCOUNT
  }

  lemma ChainAccountsAreFirst(account: nat)
    ensures IsChainAccount(account) <==> account < 5
  {
  }

  function Cashback(p: Purses, now: nat, account: nat, amount: nat, seconds: nat, requireVesting: bool): Purses
    requires Fit(p, now)
  {
    if amount == 0 || IsChainAccount(account) then p
    else
      var (q, created) := LazyDeposit(p, now, if account in p.cashback then Some(p.cashback[account]) else None, amount,
                                      seconds, account, requireVesting);
      if created.Some? then q.(cashback := q.cashback[account := created.value]) else q
  }

  /** The part of a cashback that reaches a vesting balance; the rest goes back to the reserve. */
  function Received(account: nat, amount: nat): nat { if IsChainAccount(account) then 0 else amount }

  /** A paid account's cashback goes to a balance of its own, with the current period, from then on. */
  lemma CashbackPays(p: Purses, now: nat, account: nat, amount: nat, seconds: nat, requireVesting: bool)
    requires Fit(p, now)
    ensures var q := Cashback(p, now, account, amount, seconds, requireVesting);
      && Fit(q, now) && Paid(p, q, account, Received(account, amount))
      && (Received(account, amount) > 0 ==>
          && account in q.cashback && Usable(q, Some(q.cashback[account]), seconds, account)
          && q.cashback[account] in q.balances && Takes(q.balances[q.cashback[account]], seconds, account))
  {
    hide LazyDeposit;
    if amount > 0 && !IsChainAccount(account) {
      var id := if account in p.cashback then Some(p.cashback[account]) else None;
      LazyDepositPays(p, now, id, amount, seconds, account, requireVesting);
      if Usable(p, id, seconds, account) {
        StaysUsable(p, now, id, amount, seconds, account, requireVesting);
      }
      var (q, created) := LazyDeposit(p, now, id, amount, seconds, account, requireVesting);
      if created.Some? {
        assert Paid(p, q.(cashback := q.cashback[account := created.value]), account, amount);
      }
    }
  }

  lemma StaysUsable(p: Purses, now: nat, id: Option<nat>, amount: nat, seconds: nat, owner: nat, requireVesting: bool)
    requires Fit(p, now) && Usable(p, id, seconds, owner)
    ensures Usable(LazyDeposit(p, now, id, amount, seconds, owner, requireVesting).0, id, seconds, owner)
  {
  }

  /** Share one of the pending amounts out. */
  function PayOut(p: Purses, now: nat, policy: FeePolicy, total: nat, seconds: nat, requireVesting: bool): Purses
    requires Fit(p, now) && ValidPolicy(policy)
  {
    var s := SplitFee(total, policy);
    CashbackPays(p, now, policy.lifetimeReferrer, s.lifetime, seconds, requireVesting);
    var q := Cashback(p, now, policy.lifetimeReferrer, s.lifetime, seconds, requireVesting);
    CashbackPays(q, now, policy.referrer, s.referrer, seconds, requireVesting);
    var r := Cashback(q, now, policy.referrer, s.referrer, seconds, requireVesting);
    Cashback(r, now, policy.registrar, s.registrar, seconds, requireVesting)
  }

  /** What an account gets of a shared fee. */
  ghost function ShareOf(account: nat, policy: FeePolicy, total: nat): nat
    requires ValidPolicy(policy)
  {
    var s := SplitFee(total, policy);
    (if account == policy.lifetimeReferrer then Received(account, s.lifetime) else 0) +
    (if account == policy.referrer then Received(account, s.referrer) else 0) +
    (if account == policy.registrar then Received(account, s.registrar) else 0)
  }

  /** What of a shared fee goes back to the reserve, because it would go to one of the chain's accounts. */
  ghost function Burned(policy: FeePolicy, total: nat): int
    requires ValidPolicy(policy)
  {
    var s := SplitFee(total, policy);
    s.lifetime - Received(policy.lifetimeReferrer, s.lifetime) + s.referrer - Received(policy.referrer, s.referrer) +
    s.registrar - Received(policy.registrar, s.registrar)
  }

  /** Each account gets its share, and the whole fee is accounted for: network, purses and what is burned. */
  lemma PayOutPays(p: Purses, now: nat, policy: FeePolicy, total: nat, seconds: nat, requireVesting: bool)
    requires Fit(p, now) && ValidPolicy(policy)
    ensures var q := PayOut(p, now, policy, total, seconds, requireVesting);
      && Fit(q, now)
      && SplitFee(total, policy).network + Total(q) - Total(p) + Burned(policy, total) == total
      && forall a :: Owned(q, a) == Owned(p, a) + ShareOf(a, policy, total)
  {
    hide Fit, Cashback, SplitFee, Total, Owned;
    var s := SplitFee(total, policy);
    CashbackPays(p, now, policy.lifetimeReferrer, s.lifetime, seconds, requireVesting);
    var q := Cashback(p, now, policy.lifetimeReferrer, s.lifetime, seconds, requireVesting);
    CashbackPays(q, now, policy.referrer, s.referrer, seconds, requireVesting);
    var r := Cashback(q, now, policy.referrer, s.referrer, seconds, requireVesting);
    CashbackPays(r, now, policy.registrar, s.registrar, seconds, requireVesting);
  }

  /** What has waited in the first account has to vest, what has waited in the second has vested already. */
  ghost predicate BothPaid(p: Purses, now: nat, policy: FeePolicy, pending: nat, vested: nat, seconds: nat,
                           mid: Purses, q: Purses)
  {
    && Fit(p, now) && ValidPolicy(policy) && mid == PayOut(p, now, policy, pending, seconds, true)
    && Fit(mid, now) && q == PayOut(mid, now, policy, vested, seconds, false)
  }

  // ----- the ledger

  ghost function Amount(): (nat, nat) -> int { (k, v: nat) => v }

  function Get(m: map<nat, nat>, k: nat): nat { if k in m then m[k] else 0 }

  class CoreLedger {
    var now: nat
    var supply: int
    const maxSupply: int
    var accumulatedFees: nat
    var witnessBudget: nat
    var payPerBlock: nat
    var lastBudgetTime: nat
    var balances: map<nat, nat>
    var pendingFees: map<nat, nat>
    var pendingVestedFees: map<nat, nat>
    var fbaFees: map<nat, nat>
    var vesting: Purses

    ghost predicate Valid()
      reads this
    {
      Fit(vesting, now)
    }

    ghost function Holdings(): int
      reads this
    {
      Sum(balances, Amount()) + Sum(pendingFees, Amount()) + Sum(pendingVestedFees, Amount()) +
      Sum(fbaFees, Amount()) + Total(vesting) + accumulatedFees + witnessBudget
    }

    /** Supply that nobody holds. */
    ghost function Gap(): int
      reads this
    {
      supply - Holdings()
    }

    method Credit(account: nat, amount: nat)
      modifies this`balances
      ensures forall a :: Get(balances, a) == Get(old(balances), a) + if a == account then amount else 0
      ensures Sum(balances, Amount()) == old(Sum(balances, Amount())) + amount
    {
      if amount == 0 { return; }
      SumUpdate<nat, nat>(balances, account, Get(balances, account) + amount, Amount());
      balances := balances[account := Get(balances, account) + amount];
    }

    method Debit(account: nat, amount: nat) returns (ok: bool)
      modifies this`balances
      ensures ok == (amount <= Get(old(balances), account))
      ensures forall a :: Get(balances, a) == Get(old(balances), a) - if ok && a == account then amount else 0
      ensures Sum(balances, Amount()) == old(Sum(balances, Amount())) - if ok then amount else 0
      ensures !ok ==> balances == old(balances)
    {
      if amount > Get(balances, account) { return false; }
      if amount > 0 {
        SumUpdate<nat, nat>(balances, account, balances[account] - amount, Amount());
        balances := balances[account := balances[account] - amount];
      }
      return true;
    }

    /** A fee leaves the balance and waits in one of two accounts, by its size. */
    method PayFee(account: nat, fee: nat, threshold: nat) returns (ok: bool)
      requires Valid()
      modifies this`balances, this`pendingFees, this`pendingVestedFees
      ensures Valid() && Gap() == old(Gap())
      ensures ok == (fee <= Get(old(balances), account))
      ensures forall a :: Get(balances, a) == Get(old(balances), a) - if ok && a == account then fee else 0
      ensures forall a ::
        var late := ok && a == account && fee > threshold;
        Get(pendingFees, a) == Get(old(pendingFees), a) + if late then fee else 0
      ensures forall a ::
        var soon := ok && a == account && fee <= threshold;
        Get(pendingVestedFees, a) == Get(old(pendingVestedFees), a) + if soon then fee else 0
    {
      hide Fit, Total;
      ok := Debit(account, fee);
      if !ok { return; }
      if fee > threshold {
        pendingFees := Raised(pendingFees, account, fee);
      } else {
        pendingVestedFees := Raised(pendingVestedFees, account, fee);
      }
    }

    /** Pay an account's cashback; for the chain's own accounts it leaves the supply. */
    method DepositCashback(account: nat, amount: nat, seconds: nat, requireVesting: bool)
      requires Valid()
      modifies this`supply, this`vesting
      ensures vesting == Cashback(old(vesting), now, account, amount, seconds, requireVesting)
      ensures Valid() && Paid(old(vesting), vesting, account, Received(account, amount))
      ensures supply == old(supply) - (amount - Received(account, amount))
    {
      CashbackPays(vesting, now, account, amount, seconds, requireVesting);
      if amount == 0 { return; }
      if IsChainAccount(account) {
        supply := supply - amount;
        return;
      }
      var target := if account in vesting.cashback then Some(vesting.cashback[account]) else None;
      var (next, created) := LazyDeposit(vesting, now, target, amount, seconds, account, requireVesting);
      vesting := next;
      if created.Some? {
        vesting := vesting.(cashback := vesting.cashback[account := created.value]);
      }
    }

    /** Share one of the pending amounts out. */
    method PayOutFees(policy: FeePolicy, total: nat, seconds: nat, requireVesting: bool)
      requires Valid() && ValidPolicy(policy)
      modifies this`supply, this`accumulatedFees, this`vesting
      ensures vesting == PayOut(old(vesting), now, policy, total, seconds, requireVesting)
      ensures accumulatedFees == old(accumulatedFees) + SplitFee(total, policy).network
      ensures supply == old(supply) - Burned(policy, total)
      ensures Valid() && Gap() == old(Gap()) - total
      ensures forall a :: Owned(vesting, a) == Owned(old(vesting), a) + ShareOf(a, policy, total)
    {
      hide Fit, Cashback, SplitFee, Total, Owned;
      PayOutPays(vesting, now, policy, total, seconds, requireVesting);
      var split := SplitFee(total, policy);
      accumulatedFees := accumulatedFees + split.network;
      DepositCashback(policy.lifetimeReferrer, split.lifetime, seconds, requireVesting);
      DepositCashback(policy.referrer, split.referrer, seconds, requireVesting);
      DepositCashback(policy.registrar, split.registrar, seconds, requireVesting);
    }

    /** At maintenance an account's pending fees are paid out and cleared. */
    method ProcessFees(account: nat, policy: FeePolicy, isBasic: nat -> bool, seconds: nat) returns (current: FeePolicy)
      requires Valid() && ValidPolicy(policy)
      modifies this`supply, this`accumulatedFees, this`vesting, this`pendingFees, this`pendingVestedFees
      ensures Valid() && Gap() == old(Gap()) && ValidPolicy(current)
      ensures forall a :: Get(pendingFees, a) == if a == account then 0 else Get(old(pendingFees), a)
      ensures forall a :: Get(pendingVestedFees, a) == if a == account then 0 else Get(old(pendingVestedFees), a)
      ensures var pending, vested := Get(old(pendingFees), account), Get(old(pendingVestedFees), account);
        if pending + vested == 0 then current == policy && vesting == old(vesting)
        else current == CurrentPolicy(policy, isBasic) &&
             (forall a :: Owned(vesting, a) ==
                 Owned(old(vesting), a) + ShareOf(a, current, pending) + ShareOf(a, current, vested)) &&
             exists mid :: BothPaid(old(vesting), now, current, pending, vested, seconds, mid, vesting)
    {
      hide Fit, Total, Owned, PayOut, ShareOf, Burned, SplitFee;
      current := policy;
      var pending, vested := Get(pendingFees, account), Get(pendingVestedFees, account);
      if pending > 0 || vested > 0 {
        current := CurrentPolicy(current, isBasic);
        PayOutFees(current, pending, seconds, true);
        ghost var mid := vesting;
        current := CurrentPolicy(current, isBasic);
        PayOutFees(current, vested, seconds, false);
        assert BothPaid(old(vesting), now, current, pending, vested, seconds, mid, vesting);
        pendingFees, pendingVestedFees := Cleared(pendingFees, account), Cleared(pendingVestedFees, account);
      }
    }

    /** The signing witness is paid out of the budget, as long as it lasts. */
    method PaySigningWitness(signer: nat, payInto: Option<nat>, seconds: nat) returns (pay: nat, created: Option<nat>)
      requires Valid()
      modifies this`witnessBudget, this`vesting
      ensures Valid() && Gap() == old(Gap())
      ensures pay == if payPerBlock <= old(witnessBudget) then payPerBlock else old(witnessBudget)
      ensures witnessBudget == old(witnessBudget) - pay && Paid(old(vesting), vesting, signer, pay)
      ensures (vesting, created) == LazyDeposit(old(vesting), now, payInto, pay, seconds, signer, true)
      ensures created.Some? <==> pay > 0 && !Usable(old(vesting), payInto, seconds, signer)
      ensures created.Some? ==> Usable(vesting, created, seconds, signer)
    {
      hide Fit, LazyDeposit, Total, Owned;
      pay := if payPerBlock <= witnessBudget then payPerBlock else witnessBudget;
      witnessBudget := witnessBudget - pay;
      LazyDepositPays(vesting, now, payInto, pay, seconds, signer, true);
      var (next, newId) := LazyDeposit(vesting, now, payInto, pay, seconds, signer, true);
      vesting, created := next, newId;
    }

    /** Burn the collected fees and the unused budget, and issue the new budget out of the reserve. From the third
        hard fork on the reserve holds nothing but the fees and the unused budget. */
    method ProcessBudget(now: nat, blocksToMaintenance: nat, hardfork3: bool)
      requires Valid() && blocksToMaintenance > 0 && supply <= maxSupply
      modifies this`supply, this`accumulatedFees, this`witnessBudget, this`payPerBlock, this`lastBudgetTime
      ensures Valid() && Gap() == old(Gap())
      ensures supply <= maxSupply
      ensures hardfork3 ==> supply <= old(supply)
      ensures accumulatedFees == 0 && lastBudgetTime == now
      ensures payPerBlock * blocksToMaintenance <= witnessBudget < (payPerBlock + 1) * blocksToMaintenance
      ensures witnessBudget ==
        TotalBudget((if hardfork3 then 0 else maxSupply - old(supply)) + old(accumulatedFees) + old(witnessBudget),
                                           old(lastBudgetTime), now)
    {
      hide TotalBudget, Fit, Total, Owned;
      var initial := if hardfork3 then 0 else maxSupply - supply;
      var reserve := initial + accumulatedFees + witnessBudget;
      BudgetWithinReserve(reserve, lastBudgetTime, now);
      var budget: nat := TotalBudget(reserve, lastBudgetTime, now);
      var delta := budget - accumulatedFees - witnessBudget;
      supply := supply + delta;
      accumulatedFees := 0;
      witnessBudget, lastBudgetTime := budget, now;
      payPerBlock := budget / blocksToMaintenance;
      DivBounds(budget, blocksToMaintenance);
    }

    /** Fees collected for an asset: shared between its buyback account, its issuer and the network, whose part leaves
        the supply; without a configured asset everything leaves the supply. */
    method SplitFba(fba: nat, networkPercent: nat, buybackPercent: nat, issuerPercent: nat,
                    configured: Option<(nat, nat)>)
      requires Valid() && networkPercent + buybackPercent + issuerPercent == HUNDRED_PERCENT
      modifies this`supply, this`balances, this`fbaFees
      ensures Valid() && Gap() == old(Gap())
      ensures forall f :: Get(fbaFees, f) == if f == fba then 0 else Get(old(fbaFees), f)
      ensures var fees := Get(old(fbaFees), fba);
        var buyback := if configured.None? then 0 else CutFee(fees, buybackPercent);
        var issuer := if configured.None? then 0 else CutFee(fees, issuerPercent);
        && supply == old(supply) - (fees - buyback - issuer) <= old(supply)
        && forall a :: Get(balances, a) == Get(old(balances), a)
             + (if configured.Some? && a == configured.value.0 then buyback else 0)
             + (if configured.Some? && a == configured.value.1 then issuer else 0)
    {
      hide Fit, Total, CutFee;
      var fees := Get(fbaFees, fba);
      CutIsShare(fees, buybackPercent);
      CutIsShare(fees, issuerPercent);
      CutsFit(fees, buybackPercent, issuerPercent);
      if fees == 0 { return; }
      if configured.None? {
        supply := supply - fees;
      } else {
        var buyback, issuer := fees * buybackPercent / HUNDRED_PERCENT, fees * issuerPercent / HUNDRED_PERCENT;
        supply := supply - (fees - (buyback + issuer));
        Credit(configured.value.0, buyback);
        Credit(configured.value.1, issuer);
      }
      fbaFees := Cleared(fbaFees, fba);
    }

    /** Migrating an account removes its balance from the chain. */
    method Migrate(account: nat) returns (ok: bool)
      requires Valid()
      modifies this`supply, this`balances
      ensures Valid() && Gap() == old(Gap())
      ensures ok == (old(supply) >= Get(old(balances), account) > 0)
      ensures forall a :: Get(balances, a) == if ok && a == account then 0 else Get(old(balances), a)
      ensures supply == old(supply) - if ok then Get(old(balances), account) else 0
    {
      var amount := Get(balances, account);
      if amount == 0 || supply < amount { return false; }
      var done := Debit(account, amount);
      supply := supply - amount;
      return true;
    }
  }

  /** The sum grows by what one entry is raised. */
  function Raised(m: map<nat, nat>, k: nat, amount: nat): (r: map<nat, nat>)
    ensures Sum(r, Amount()) == Sum(m, Amount()) + amount
    ensures forall j :: Get(r, j) == Get(m, j) + if j == k then amount else 0
  {
    SumUpdate<nat, nat>(m, k, Get(m, k) + amount, Amount());
    m[k := Get(m, k) + amount]
  }

  function Cleared(m: map<nat, nat>, k: nat): (r: map<nat, nat>)
    ensures Sum(r, Amount()) == Sum(m, Amount()) - Get(m, k)
    ensures forall j :: Get(r, j) == if j == k then 0 else Get(m, j)
  {
    SumUpdate<nat, nat>(m, k, 0, Amount());
    m[k := 0]
  }

  lemma CutIsShare(amount: nat, percent: nat)
    ensures CutFee(amount, percent) == amount * percent / HUNDRED_PERCENT
  {
    if percent == HUNDRED_PERCENT {
      MultipleDiv(amount, HUNDRED_PERCENT);
    }
  }
}
