/** Vesting balances: coin-seconds earned lazily up to a cap, and linear vesting. */
module Vesting {
  import opened Common
  import opened Arithmetic

  function Min(a: nat, b: nat): nat { if a <= b then a else b }

  function CoinSeconds(coins: nat, seconds: nat): nat { coins * seconds }

  /** A balance under the coin-days-destroyed policy. `earned` was brought up to date at `last`. */
  datatype Cdd = Cdd(balance: nat, vestingSeconds: nat, startClaim: nat, earned: nat, last: nat) {
    /** What one coin has to earn before it can be withdrawn. */
    function Rate(): nat { if vestingSeconds >= 1 then vestingSeconds else 1 }
    function Cap(): nat { CoinSeconds(balance, Rate()) }
  }

  function Earned(v: Cdd, now: nat): nat
    requires now >= v.last
  {
    Min(v.earned + CoinSeconds(v.balance, now - v.last), v.Cap())
  }

  function Update(v: Cdd, now: nat): Cdd
    requires now >= v.last
  {
    v.(earned := Earned(v, now), last := now)
  }

  function Allowed(v: Cdd, now: nat): nat
    requires now >= v.last
  {
    if now <= v.startClaim then 0 else Earned(v, now) / v.Rate()
  }

  function Deposit(v: Cdd, now: nat, amount: nat): Cdd
    requires now >= v.last
  {
    var u := Update(v, now);
    u.(balance := u.balance + amount)
  }

  function DepositVested(v: Cdd, now: nat, amount: nat): Cdd
    requires now >= v.last
  {
    var u := Update(v, now);
    u.(balance := u.balance + amount, earned := u.earned + CoinSeconds(amount, u.Rate()))
  }

  /** The two subtractions are the ones the code guards with assertions. */
  function Withdraw(v: Cdd, now: nat, amount: nat): Cdd
    requires now >= v.last && amount <= v.balance && CoinSeconds(amount, v.Rate()) <= Earned(v, now)
  {
    var u := Update(v, now);
    u.(balance := u.balance - amount, earned := u.earned - CoinSeconds(amount, u.Rate()))
  }

  // ----- lazy accrual

  /** Bringing the policy up to date along the way changes nothing. */
  lemma UpdateTwice(v: Cdd, mid: nat, now: nat)
    requires v.last <= mid <= now
    ensures Update(Update(v, mid), now) == Update(v, now)
  {
    var (b, d, e) := (v.balance, mid - v.last, now - mid);
    assert b * (d + e) == b * d + b * e;
  }

  function UpdateAll(v: Cdd, times: seq<nat>): Cdd
    requires Ascending(times) && (times != [] ==> v.last <= times[0])
    decreases |times|
  {
    if times == [] then v else UpdateAll(Update(v, times[0]), times[1..])
  }

  /** However the elapsed time is split, the earned coin-seconds are the same as in a single step. */
  lemma {:induction false} SplitsDoNotMatter(v: Cdd, times: seq<nat>, now: nat)
    requires Ascending(times) && (times != [] ==> v.last <= times[0] && times[|times| - 1] <= now) && v.last <= now
    ensures UpdateAll(v, times).last <= now && Update(UpdateAll(v, times), now) == Update(v, now)
    decreases |times|
  {
    if times != [] {
      UpdateTwice(v, times[0], now);
      SplitsDoNotMatter(Update(v, times[0]), times[1..], now);
    }
  }

  /** The reference: one second at a time, stopping at the cap. */
  function Tick(v: Cdd): Cdd {
    v.(earned := Min(v.earned + v.balance, v.Cap()), last := v.last + 1)
  }

  function Ticks(v: Cdd, n: nat): Cdd { if n == 0 then v else Tick(Ticks(v, n - 1)) }

  lemma {:induction false} LazyIsPerSecond(v: Cdd, n: nat)
    requires n > 0
    ensures Ticks(v, n) == Update(v, v.last + n)
  {
    if n == 1 {
      assert Ticks(v, 1) == Tick(Ticks(v, 0));
    } else {
      LazyIsPerSecond(v, n - 1);
      assert v.balance * n == v.balance * (n - 1) + v.balance;
    }
  }

  // ----- withdrawals

  ghost predicate Sound(v: Cdd) { v.earned <= v.Cap() }

  /** A withdrawal is allowed exactly when the claim period has begun and the coin-seconds for it are there; then
      neither assertion of the withdrawal can fail. */
  lemma AllowedIsSafe(v: Cdd, now: nat, amount: nat)
    requires now >= v.last
    ensures amount <= Allowed(v, now) <==>
      amount == 0 || (now > v.startClaim && CoinSeconds(amount, v.Rate()) <= Earned(v, now))
    ensures amount <= Allowed(v, now) ==> amount <= v.balance && CoinSeconds(amount, v.Rate()) <= Earned(v, now)
  {
    var (r, e) := (v.Rate(), Earned(v, now));
    assert e == e / r * r + e % r;
    if amount <= e / r {
      MulMono(amount, e / r, r);
      Cancel(amount, v.balance, r);
    } else {
      MulMono(e / r + 1, amount, r);
      assert (e / r + 1) * r == e / r * r + r;
    }
  }

  /** A withdrawal that is not allowed is refused. */
  function Attempt(v: Cdd, now: nat, amount: nat): Cdd
    requires now >= v.last
  {
    AllowedIsSafe(v, now, amount);
    if amount <= Allowed(v, now) then Withdraw(v, now, amount) else v
  }

  datatype Op =
    | OpDeposit(now: nat, amount: nat)
    | OpDepositVested(now: nat, amount: nat)
    | OpWithdraw(now: nat, amount: nat)

  /** Balance, and the totals of a run: coins put in and withdrawn; coin-seconds accrued, deposited as vested, and
      lost to the cap. */
  datatype Account = Account(v: Cdd, deposited: nat, withdrawn: nat, accrued: nat, vested: nat, lost: nat)

  /** What the cap takes when the policy is brought up to date. */
  function Excess(v: Cdd, now: nat): nat
    requires now >= v.last
  {
    var total := v.earned + CoinSeconds(v.balance, now - v.last);
    if total > v.Cap() then total - v.Cap() else 0
  }

  /** A withdrawal that is not allowed is refused; so is a call that would go back in time. */
  function Step(a: Account, op: Op): Account {
    if op.now < a.v.last then a
    else
      var b := a.(accrued := a.accrued + CoinSeconds(a.v.balance, op.now - a.v.last),
                  lost := a.lost + Excess(a.v, op.now));
      match op
      case OpDeposit(now, amount) => b.(v := Deposit(a.v, now, amount), deposited := a.deposited + amount)
      case OpDepositVested(now, amount) =>
        b.(v := DepositVested(a.v, now, amount), deposited := a.deposited + amount,
           vested := a.vested + CoinSeconds(amount, a.v.Rate()))
      case OpWithdraw(now, amount) =>
        if amount > Allowed(a.v, now) then a
        else b.(v := Attempt(a.v, now, amount), withdrawn := a.withdrawn + amount)
  }

  function Run(a: Account, ops: seq<Op>): Account
    decreases |ops|
  {
    if ops == [] then a else Run(Step(a, ops[0]), ops[1..])
  }

  /** Coins and coin-seconds balance exactly: what was put in is withdrawn or still there; what was accrued or deposited
      as vested has paid for a withdrawal, is still earned, or was lost to the cap. */
  ghost predicate Balanced(a: Account) {
    && Sound(a.v) && a.v.balance + a.withdrawn == a.deposited
    && a.v.earned + CoinSeconds(a.withdrawn, a.v.Rate()) + a.lost == a.accrued + a.vested
  }

  lemma DepositBalanced(a: Account, op: Op)
    requires Balanced(a) && op.now >= a.v.last && !op.OpWithdraw?
    ensures Balanced(Step(a, op))
  {
    hide CoinSeconds;
    var (r, b, amount) := (a.v.Rate(), a.v.balance, op.amount);
    CoinSecondsAdd(b, amount, r);
  }

  lemma WithdrawalBalanced(a: Account, now: nat, amount: nat)
    requires Balanced(a) && now >= a.v.last && amount <= Allowed(a.v, now)
    ensures Balanced(Step(a, OpWithdraw(now, amount)))
  {
    hide Allowed;
    AllowedIsSafe(a.v, now, amount);
    hide CoinSeconds;
    var (r, b) := (a.v.Rate(), a.v.balance);
    CoinSecondsAdd(b - amount, amount, r);
    CoinSecondsAdd(a.withdrawn, amount, r);
  }

  lemma CoinSecondsAdd(a: nat, b: nat, seconds: nat)
    ensures CoinSeconds(a + b, seconds) == CoinSeconds(a, seconds) + CoinSeconds(b, seconds)
  {
    Distribute(a, b, seconds);
  }

  lemma StepBalanced(a: Account, op: Op)
    requires Balanced(a)
    ensures Balanced(Step(a, op)) && Step(a, op).v.Rate() == a.v.Rate()
  {
    hide Balanced, Earned;
    if op.now >= a.v.last {
      if !op.OpWithdraw? {
        DepositBalanced(a, op);
      } else if op.amount <= Allowed(a.v, op.now) {
        WithdrawalBalanced(a, op.now, op.amount);
      }
    }
  }

  /** Every run keeps the account balanced and its earned coin-seconds below the cap. */
  lemma {:induction false} RunBalanced(a: Account, ops: seq<Op>)
    requires Balanced(a)
    ensures Balanced(Run(a, ops)) && Run(a, ops).v.Rate() == a.v.Rate()
    decreases |ops|
  {
    if ops != [] {
      StepBalanced(a, ops[0]);
      RunBalanced(Step(a, ops[0]), ops[1..]);
    }
  }

  /** A new balance is created with nothing earned, or with its full vesting period earned. */
  function Created(amount: nat, vestingSeconds: nat, now: nat, requireVesting: bool): Account {
    var earned := if requireVesting then 0 else amount * vestingSeconds;
    Account(Cdd(amount, vestingSeconds, 0, earned, now), amount, 0, 0, earned, 0)
  }

  /** Unless it has to vest, the whole of a new balance can be withdrawn at once, if there is a vesting period at all;
      otherwise nothing can. Either way all of it can once the period has passed. */
  lemma CreatedAllows(amount: nat, vestingSeconds: nat, now: nat, requireVesting: bool, later: nat)
    requires now > 0 && later >= now
    ensures var v := Created(amount, vestingSeconds, now, requireVesting).v;
      && v.balance == amount
      && Allowed(v, now) == (if requireVesting || vestingSeconds == 0 then 0 else amount)
      && (later - now >= v.Rate() ==> Allowed(v, later) == amount)
  {
    var v := Created(amount, vestingSeconds, now, requireVesting).v;
    MultipleDiv(amount, v.Rate());
    if later - now >= v.Rate() {
      MulMono(v.Rate(), later - now, amount);
    }
    MulMono(vestingSeconds, v.Rate(), amount);
  }

  lemma WithdrawalsAreEarned(amount: nat, vestingSeconds: nat, now: nat, requireVesting: bool, ops: seq<Op>)
    ensures var a := Run(Created(amount, vestingSeconds, now, requireVesting), ops);
      && a.withdrawn * vestingSeconds <= a.accrued + a.vested && a.v.earned <= a.v.Cap()
      && a.v.balance + a.withdrawn == a.deposited
  {
    var a := Created(amount, vestingSeconds, now, requireVesting);
    MulMono(vestingSeconds, a.v.Rate(), amount);
    RunBalanced(a, ops);
    var r := Run(a, ops);
    MulMono(vestingSeconds, a.v.Rate(), r.withdrawn);
  }

  class VestingBalance {
    var balance: nat
    var vestingSeconds: nat
    var startClaim: nat
    var earned: nat
    var last: nat

    ghost function State(): Cdd
      reads this
    {
      Cdd(balance, vestingSeconds, startClaim, earned, last)
    }

    constructor (amount: nat, seconds: nat, now: nat, requireVesting: bool)
      ensures State() == Created(amount, seconds, now, requireVesting).v && Sound(State())
    {
      balance, vestingSeconds, startClaim, last := amount, seconds, 0, now;
      earned := if requireVesting then 0 else amount * seconds;
      MulMono(seconds, if seconds >= 1 then seconds else 1, amount);
    }

    method BringUpToDate(now: nat)
      requires now >= last
      modifies this
      ensures State() == Update(old(State()), now) && Sound(State())
    {
      var rate := if vestingSeconds >= 1 then vestingSeconds else 1;
      var total, cap := earned + CoinSeconds(balance, now - last), CoinSeconds(balance, rate);
      earned, last := (if total <= cap then total else cap), now;
    }

    method DepositUnvested(now: nat, amount: nat)
      requires now >= last && Sound(State())
      modifies this
      ensures State() == Deposit(old(State()), now, amount) && Sound(State())
    {
      BringUpToDate(now);
      MulMono(balance, balance + amount, State().Rate());
      balance := balance + amount;
    }

    method DepositAsVested(now: nat, amount: nat)
      requires now >= last && Sound(State())
      modifies this
      ensures State() == DepositVested(old(State()), now, amount) && Sound(State())
    {
      BringUpToDate(now);
      var rate := if vestingSeconds >= 1 then vestingSeconds else 1;
      assert (balance + amount) * rate == balance * rate + amount * rate;
      earned := earned + amount * rate;
      balance := balance + amount;
    }

    /** Withdraw if the policy allows it; the assertions on the way never fail. */
    method TryWithdraw(now: nat, amount: nat) returns (ok: bool)
      requires now >= last && Sound(State())
      modifies this
      ensures ok == (amount <= Allowed(old(State()), now)) && Sound(State())
      ensures State() == Attempt(old(State()), now, amount)
    {
      AllowedIsSafe(State(), now, amount);
      var rate := if vestingSeconds >= 1 then vestingSeconds else 1;
      var available := if now <= startClaim then 0
        else Min(earned + CoinSeconds(balance, now - last), CoinSeconds(balance, rate)) / rate;
      if amount > available { return false; }
      assert amount <= balance;
      BringUpToDate(now);
      assert amount * rate <= earned;
      assert (balance - amount) * rate == balance * rate - amount * rate;
      earned, balance := earned - amount * rate, balance - amount;
      return true;
    }
  }

  // ----- linear vesting

  datatype Linear = Linear(balance: nat, begin: nat, cliff: nat, duration: nat, beginBalance: nat)

  predicate PastCliff(l: Linear, now: nat) { now > l.begin && now - l.begin >= l.cliff }

  function Vested(l: Linear, now: nat): nat
    requires now >= l.begin
  {
    var elapsed := now - l.begin;
    if elapsed < l.duration then Share(l.beginBalance, elapsed, l.duration) else l.beginBalance
  }

  function Share(total: nat, part: nat, whole: nat): nat
    requires whole > 0
  {
    total * part / whole
  }

  lemma ShareGrows(total: nat, part: nat, more: nat, whole: nat)
    requires whole > 0 && part <= more <= whole
    ensures Share(total, part, whole) <= Share(total, more, whole) <= total
  {
    MulMono(part, more, total);
    DivMono(total * part, total * more, whole);
    MulMono(more, whole, total);
    DivMono(total * more, total * whole, whole);
    MultipleDiv(total, whole);
  }

  /** What the assertions of the policy demand before it can say how much may be withdrawn. */
  predicate Answers(l: Linear, now: nat) {
    PastCliff(l, now) ==> l.balance <= l.beginBalance && l.beginBalance - l.balance <= Vested(l, now)
  }

  function LinearAllowed(l: Linear, now: nat): nat
    requires Answers(l, now)
  {
    if PastCliff(l, now) then Vested(l, now) - (l.beginBalance - l.balance) else 0
  }

  lemma VestedGrows(l: Linear, now: nat, later: nat)
    requires l.begin <= now <= later
    ensures Vested(l, now) <= Vested(l, later) <= l.beginBalance
  {
    hide Share;
    var (e, f, d) := (now - l.begin, later - l.begin, l.duration);
    if e < d {
      ShareGrows(l.beginBalance, e, if f < d then f else d, d);
    }
  }

  /** What has vested is the elapsed part of the original balance, rounded down, and all of it in the end. */
  lemma VestedIs(l: Linear, now: nat)
    requires now >= l.begin
    ensures var elapsed := now - l.begin;
      if elapsed >= l.duration then Vested(l, now) == l.beginBalance
      else Vested(l, now) * l.duration <= l.beginBalance * elapsed < (Vested(l, now) + 1) * l.duration
  {
    if now - l.begin < l.duration {
      DivBounds(l.beginBalance * (now - l.begin), l.duration);
    }
  }

  /** Once the cliff has passed, withdrawing all that is allowed leaves exactly what has not vested; before, nothing is
      allowed. */
  lemma AllowsWhatIsVested(l: Linear, now: nat)
    requires now >= l.begin && LinearSound(l, now)
    ensures Answers(l, now) && LinearAllowed(l, now) <= l.balance
    ensures l.balance - LinearAllowed(l, now) ==
      if now > l.begin && now - l.begin >= l.cliff then l.beginBalance - Vested(l, now) else l.balance
  {
    hide Share;
    VestedGrows(l, now, now);
  }

  datatype Claim = Claim(now: nat, amount: nat)

  /** A withdrawal of at most the allowed amount; anything else is refused. */
  function LinearStep(l: Linear, c: Claim): Linear {
    if Answers(l, c.now) && c.amount <= LinearAllowed(l, c.now) && c.amount <= l.balance
    then l.(balance := l.balance - c.amount) else l
  }

  function LinearRun(l: Linear, claims: seq<Claim>): Linear
    decreases |claims|
  {
    if claims == [] then l else LinearRun(LinearStep(l, claims[0]), claims[1..])
  }

  ghost predicate LinearSound(l: Linear, now: nat)
    requires now >= l.begin
  {
    l.balance <= l.beginBalance && l.beginBalance - l.balance <= if PastCliff(l, now) then Vested(l, now) else 0
  }

  /** As time passes the policy keeps its answers, and whatever it allows is there and leaves it sound. */
  lemma LinearStays(l: Linear, now: nat, c: Claim)
    requires l.begin <= now <= c.now && LinearSound(l, now)
    ensures Answers(l, c.now) && LinearAllowed(l, c.now) <= l.balance
    ensures LinearSound(LinearStep(l, c), c.now)
    ensures LinearStep(l, c) ==
      l.(balance := l.balance - if c.amount <= LinearAllowed(l, c.now) then c.amount else 0)
  {
    hide Share;
    VestedGrows(l, now, c.now);
  }

  ghost predicate InOrder(from: nat, claims: seq<Claim>)
    decreases |claims|
  {
    claims != [] ==> from <= claims[0].now && InOrder(claims[0].now, claims[1..])
  }

  ghost function End(from: nat, claims: seq<Claim>): nat {
    if claims == [] then from else claims[|claims| - 1].now
  }

  /** In every run of withdrawals no more than the vested part of the original balance has been paid out, and the
      assertions hold at every step. */
  lemma {:induction false} LinearNeverOverdrawn(l: Linear, from: nat, claims: seq<Claim>)
    requires from >= l.begin && LinearSound(l, from) && InOrder(from, claims)
    ensures End(from, claims) >= l.begin && LinearRun(l, claims) == l.(balance := LinearRun(l, claims).balance)
    ensures LinearSound(LinearRun(l, claims), End(from, claims))
    decreases |claims|
  {
    if claims != [] {
      LinearStays(l, from, claims[0]);
      LinearNeverOverdrawn(LinearStep(l, claims[0]), claims[0].now, claims[1..]);
    }
  }

  /** Five coins vesting over ten seconds: after half of the time, a deposit of one more makes the policy fail. */
  lemma LateDepositFails()
    ensures var l := Linear(5, 0, 0, 10, 5); LinearSound(l, 5) && Answers(l, 5) && !Answers(l.(balance := 6), 5)
  {
    assert Share(5, 5, 10) == 2;
  }

  /** Deposits are accepted but not counted in the original balance: once the cliff has passed, the policy still
      answers after a deposit exactly when no more than what was withdrawn has been put back. */
  lemma LinearDepositTripsAssertion(l: Linear, now: nat, amount: nat)
    requires now >= l.begin && LinearSound(l, now) && PastCliff(l, now)
    ensures Answers(l.(balance := l.balance + amount), now) <==> amount <= l.beginBalance - l.balance
  {
  }
}
