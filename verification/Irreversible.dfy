/** Which block the witnesses have made irreversible, and why it can always be popped back to. */
module Irreversible {
  import opened Common
  import opened ObjectStore
  import opened UndoLog
  import opened ForkSwitch

  const IRREVERSIBLE_THRESHOLD := 5500
  const MAX_UNDO_HISTORY := 10000

  // ----- order statistics

  function Insert(x: nat, s: seq<nat>): seq<nat> {
    if s == [] then [x] else if x <= s[0] then [x] + s else [s[0]] + Insert(x, s[1..])
  }

  function Sort(s: seq<nat>): seq<nat> {
    if s == [] then [] else Insert(s[0], Sort(s[1..]))
  }

  /** How many of the values are at least `v`. */
  function CountAtLeast(s: seq<nat>, v: nat): nat {
    if s == [] then 0 else (if s[0] >= v then 1 else 0) + CountAtLeast(s[1..], v)
  }

  lemma {:induction false} InsertKeeps(x: nat, s: seq<nat>, v: nat)
    requires Ascending(s)
    ensures |Insert(x, s)| == |s| + 1 && Ascending(Insert(x, s))
    ensures CountAtLeast(Insert(x, s), v) == CountAtLeast([x] + s, v)
    ensures forall y <- Insert(x, s) :: y == x || y in s
  {
    if s != [] && x > s[0] {
      InsertKeeps(x, s[1..], v);
      assert ([x] + s)[1..] == s && ([x] + s[1..])[1..] == s[1..];
    } else {
      assert ([x] + s)[1..] == s;
    }
  }

  lemma {:induction false} SortKeeps(s: seq<nat>, v: nat)
    ensures |Sort(s)| == |s| && Ascending(Sort(s)) && CountAtLeast(Sort(s), v) == CountAtLeast(s, v)
    ensures forall y <- Sort(s) :: y in s
  {
    if s != [] {
      SortKeeps(s[1..], v);
      InsertKeeps(s[0], Sort(s[1..]), v);
      var t := [s[0]] + Sort(s[1..]);
      assert t[1..] == Sort(s[1..]);
    }
  }

  lemma {:induction false} CountAscending(s: seq<nat>, k: nat, v: nat)
    requires Ascending(s) && k < |s|
    ensures v <= s[k] ==> CountAtLeast(s, v) >= |s| - k
    ensures v > s[k] ==> CountAtLeast(s, v) < |s| - k
    decreases |s|
  {
    if k > 0 {
      CountAscending(s[1..], k - 1, v);
    } else if |s| > 1 {
      CountAscending(s[1..], 0, v);
      assert s[0] <= s[1];
      CountBounded(s[1..], v);
    }
  }

  lemma {:induction false} CountBounded(s: seq<nat>, v: nat)
    ensures CountAtLeast(s, v) <= |s|
  {
    if s != [] {
      CountBounded(s[1..], v);
    }
  }

  // ----- the irreversible block

  /** `confirmed` is the last block each witness signed; a witness that never signed counts as 0. */
  datatype Chain = Chain(head: nat, lib: nat, confirmed: map<nat, nat>)

  function LastConfirmed(c: Chain, w: nat): nat { if w in c.confirmed then c.confirmed[w] else 0 }

  function Confirmations(c: Chain, active: seq<nat>): (r: seq<nat>)
    ensures |r| == |active|
  {
    seq(|active|, i requires 0 <= i < |active| => LastConfirmed(c, active[i]))
  }

  function Offset(n: nat): nat { (HUNDRED_PERCENT - IRREVERSIBLE_THRESHOLD) * n / HUNDRED_PERCENT }

  function Candidate(c: Chain, active: seq<nat>): nat
    requires active != []
  {
    SortKeeps(Confirmations(c, active), 0);
    Sort(Confirmations(c, active))[Offset(|active|)]
  }

  /** One block signed by `signer` while `active` are the active witnesses. A block too far above the irreversible
      one is refused. */
  function Sign(c: Chain, signer: nat, active: seq<nat>): Chain
    requires active != []
  {
    if c.head + 1 - c.lib >= MAX_UNDO_HISTORY then c
    else
      var signed := c.(head := c.head + 1, confirmed := c.confirmed[signer := c.head + 1]);
      var candidate := Candidate(signed, active);
      signed.(lib := if candidate > c.lib then candidate else c.lib)
  }

  datatype Turn = Turn(signer: nat, active: seq<nat>)

  function Signs(c: Chain, turns: seq<Turn>): Chain
    requires forall t <- turns :: t.active != []
    decreases |turns|
  {
    if turns == [] then c else assert turns[0] in turns; Signs(Sign(c, turns[0].signer, turns[0].active), turns[1..])
  }

  ghost predicate Sane(c: Chain) {
    c.lib <= c.head && forall w <- c.confirmed :: c.confirmed[w] <= c.head
  }

  /** The candidate is the highest block that the threshold share of the active witnesses has reached: no
      higher number is reached by as many witnesses. */
  lemma CandidateIsThreshold(c: Chain, active: seq<nat>, v: nat)
    requires active != []
    ensures var reached := CountAtLeast(Confirmations(c, active), Candidate(c, active));
      reached * HUNDRED_PERCENT >= IRREVERSIBLE_THRESHOLD * |active|
    ensures CountAtLeast(Confirmations(c, active), v) >= |active| - Offset(|active|) <==> v <= Candidate(c, active)
    ensures Candidate(c, active) in Confirmations(c, active)
  {
    var values, k := Confirmations(c, active), Offset(|active|);
    SortKeeps(values, Candidate(c, active));
    CountAscending(Sort(values), k, Candidate(c, active));
    SortKeeps(values, v);
    CountAscending(Sort(values), k, v);
    assert Sort(values)[k] in values;
  }

  /** A share of the active witnesses has confirmed block v or a later one. */
  ghost predicate Reached(c: Chain, active: seq<nat>, v: nat) {
    CountAtLeast(Confirmations(c, active), v) * HUNDRED_PERCENT >= IRREVERSIBLE_THRESHOLD * |active|
  }

  /** The candidate is a threshold: exactly the numbers up to it have been reached by the share of the witnesses. */
  lemma ReachedIffBelowCandidate(c: Chain, active: seq<nat>, v: nat)
    requires active != []
    ensures Reached(c, active, v) <==> v <= Candidate(c, active)
  {
    CandidateIsThreshold(c, active, v);
  }

  /** One signed block: the signer has confirmed it, nobody else has confirmed anything new, and irreversible is the
      highest block that the share has reached, or what it was. A block too far above it changes nothing. */
  lemma SignExact(c: Chain, signer: nat, active: seq<nat>, w: nat, v: nat)
    requires active != []
    ensures var d := Sign(c, signer, active);
      && (d == c <==> c.head + 1 - c.lib >= MAX_UNDO_HISTORY)
      && (d != c ==>
            && d.head == c.head + 1
            && LastConfirmed(d, w) == (if w == signer then d.head else LastConfirmed(c, w))
            && (d.lib == c.lib || Reached(d, active, d.lib))
            && (v > c.lib ==> (Reached(d, active, v) <==> v <= d.lib)))
  {
    hide Candidate, Offset;
    var signed := c.(head := c.head + 1, confirmed := c.confirmed[signer := c.head + 1]);
    var d := Sign(c, signer, active);
    assert Confirmations(d, active) == Confirmations(if d == c then c else signed, active);
    ReachedIffBelowCandidate(signed, active, v);
    ReachedIffBelowCandidate(signed, active, d.lib);
  }

  /** The irreversible block never goes back and never passes the head; when it moves, the threshold share of the
      witnesses active at that moment stands behind it. */
  lemma SignStep(c: Chain, signer: nat, active: seq<nat>)
    requires Sane(c) && active != []
    ensures var d := Sign(c, signer, active);
      && Sane(d) && c.lib <= d.lib && c.head <= d.head
      && (d.lib > c.lib ==>
            CountAtLeast(Confirmations(d, active), d.lib) * HUNDRED_PERCENT >= IRREVERSIBLE_THRESHOLD * |active|)
  {
    if c.head + 1 - c.lib < MAX_UNDO_HISTORY {
      var signed := c.(head := c.head + 1, confirmed := c.confirmed[signer := c.head + 1]);
      CandidateIsThreshold(signed, active, 0);
      assert Confirmations(signed, active) == Confirmations(Sign(c, signer, active), active);
    }
  }

  lemma {:induction false} IrreversibleNeverGoesBack(c: Chain, turns: seq<Turn>)
    requires Sane(c) && (forall t <- turns :: t.active != [])
    ensures Sane(Signs(c, turns)) && c.lib <= Signs(c, turns).lib <= Signs(c, turns).head
    decreases |turns|
  {
    if turns != [] {
      assert turns[0] in turns;
      SignStep(c, turns[0].signer, turns[0].active);
      IrreversibleNeverGoesBack(Sign(c, turns[0].signer, turns[0].active), turns[1..]);
    }
  }

  // ----- the undo history reaches back to it

  /** A block together with the calls it makes on the object store. */
  datatype SignedBlock<V> = SignedBlock(turn: Turn, ops: seq<Op<V>>)

  /** The block closes its sessions, nests them one deep at most, and sets the history limit to the distance
      between the new head and the irreversible block as it was before. */
  ghost predicate Regular<V>(c: Chain, store: Store<V>, b: SignedBlock<V>) {
    && b.turn.active != [] && c.head + 1 - c.lib < MAX_UNDO_HISTORY
    && c.lib <= c.head
    && Bracketed(store, b.ops)
    && Calm(View(store, [store], 1), b.ops, c.head + 1 - c.lib + 1, 1)
    && (forall m :: SizeAfter(m, b.ops) == c.head + 1 - c.lib + 1)
  }

  ghost predicate RegularRun<V>(c: Chain, store: Store<V>, bs: seq<SignedBlock<V>>)
    decreases |bs|
  {
    bs != [] ==>
      && Regular(c, store, bs[0])
      && RegularRun(Sign(c, bs[0].turn.signer, bs[0].turn.active), Effect(store, bs[0].ops), bs[1..])
  }

  ghost function ChainAfter<V>(c: Chain, store: Store<V>, bs: seq<SignedBlock<V>>): Chain
    requires RegularRun(c, store, bs)
    decreases |bs|
  {
    if bs == [] then c
    else ChainAfter(Sign(c, bs[0].turn.signer, bs[0].turn.active), Effect(store, bs[0].ops), bs[1..])
  }

  ghost function LogAfter<V>(l: Log<V>, bs: seq<SignedBlock<V>>): Log<V>
    decreases |bs|
  {
    if bs == [] then l else LogAfter(SessionLog(l, Plan(bs[0].ops, true)), bs[1..])
  }

  /** The state each block of the run is applied to. */
  ghost function StatesBefore<V>(store: Store<V>, bs: seq<SignedBlock<V>>): (r: seq<Store<V>>)
    ensures |r| == |bs|
    decreases |bs|
  {
    if bs == [] then [] else [store] + StatesBefore(Effect(store, bs[0].ops), bs[1..])
  }

  /** The newest undo entries restore the states after the irreversible block, one entry per block above it. */
  ghost predicate Retained<V>(c: Chain, l: Log<V>, s: Snapshots<V>, states: seq<Store<V>>) {
    Sane(c) && Holds(l, s, states) && |states| == c.head - c.lib && |states| + 1 <= l.maxSize
  }

  lemma BlockRetains<V>(c: Chain, l: Log<V>, s: Snapshots<V>, states: seq<Store<V>>, b: SignedBlock<V>)
    returns (s': Snapshots<V>, states': seq<Store<V>>)
    requires Retained(c, l, s, states) && Regular(c, l.store, b)
    ensures Retained(Sign(c, b.turn.signer, b.turn.active), SessionLog(l, Plan(b.ops, true)), s', states')
    ensures SessionLog(l, Plan(b.ops, true)).store == Effect(l.store, b.ops)
    ensures states' != [] ==> states'[|states'| - 1] == l.store
    ensures states' == (states + [l.store])[Sign(c, b.turn.signer, b.turn.active).lib - c.lib..]
  {
    hide Holds, Sign, SessionLog, HasRoom, Calm, Inside, ViewRun, Effect;
    var d := Sign(c, b.turn.signer, b.turn.active);
    SignStep(c, b.turn.signer, b.turn.active);
    HeadRises(c, b.turn);
    CalmHasRoom(states, View(l.store, [l.store], 1), l.maxSize, b.ops, c.head + 1 - c.lib + 1, 1);
    s' := SessionHolds(l, s, states, Plan(b.ops, true));
    HoldsSuffix(SessionLog(l, Plan(b.ops, true)), s', states + [l.store], d.lib - c.lib);
    states' := (states + [l.store])[d.lib - c.lib..];
  }

  /** Every append-only run keeps enough entries to pop back to the irreversible block, and they are the entries of its
      own blocks: together they restore the state before each block above the irreversible one. */
  lemma {:induction false} RunRetains<V>(c: Chain, l: Log<V>, s: Snapshots<V>, states: seq<Store<V>>,
                                         bs: seq<SignedBlock<V>>)
    returns (s': Snapshots<V>, states': seq<Store<V>>)
    requires Retained(c, l, s, states) && RegularRun(c, l.store, bs)
    ensures Retained(ChainAfter(c, l.store, bs), LogAfter(l, bs), s', states')
    ensures var d := ChainAfter(c, l.store, bs);
      && d.head == c.head + |bs| && c.lib <= d.lib
      && states' == (states + StatesBefore(l.store, bs))[d.lib - c.lib..]
    decreases |bs|
  {
    hide Holds, Sign, SessionLog, Regular, Effect, RegularRun, ChainAfter, LogAfter, StatesBefore;
    NoBlocks(c, l, bs);
    if bs == [] {
      s', states' := s, states;
      assert states + StatesBefore(l.store, bs) == states;
    } else {
      var b := bs[0];
      FirstBlock(c, l, bs);
      var c1, l1 := Sign(c, b.turn.signer, b.turn.active), SessionLog(l, Plan(b.ops, true));
      SignStep(c, b.turn.signer, b.turn.active);
      var s1, states1 := BlockRetains(c, l, s, states, b);
      s', states' := RunRetains(c1, l1, s1, states1, bs[1..]);
      var d := ChainAfter(c, l.store, bs);
      DropTwice(states, l.store, StatesBefore(l1.store, bs[1..]), c1.lib - c.lib, d.lib - c1.lib);
    }
  }

  lemma NoBlocks<V>(c: Chain, l: Log<V>, bs: seq<SignedBlock<V>>)
    requires RegularRun(c, l.store, bs)
    ensures bs == [] ==> ChainAfter(c, l.store, bs) == c && LogAfter(l, bs) == l && StatesBefore(l.store, bs) == []
  {
  }

  /** A run is its first block and the run of the others after it. */
  lemma FirstBlock<V>(c: Chain, l: Log<V>, bs: seq<SignedBlock<V>>)
    requires RegularRun(c, l.store, bs) && bs != []
    ensures var b := bs[0];
      var c1, store1 := Sign(c, b.turn.signer, b.turn.active), Effect(l.store, b.ops);
      && Regular(c, l.store, b) && b.turn.active != [] && c1.head == c.head + 1
      && RegularRun(c1, store1, bs[1..])
      && ChainAfter(c, l.store, bs) == ChainAfter(c1, store1, bs[1..])
      && LogAfter(l, bs) == LogAfter(SessionLog(l, Plan(b.ops, true)), bs[1..])
      && StatesBefore(l.store, bs) == [l.store] + StatesBefore(store1, bs[1..])
  {
    hide Sign, SessionLog, Effect;
    HeadRises(c, bs[0].turn);
  }

  lemma HeadRises(c: Chain, t: Turn)
    requires c.lib <= c.head && c.head + 1 - c.lib < MAX_UNDO_HISTORY && t.active != []
    ensures Sign(c, t.signer, t.active).head == c.head + 1
  {
  }

  lemma DropTwice<T>(xs: seq<T>, y: T, zs: seq<T>, m: nat, n: nat)
    requires m <= |xs| + 1 && m + n <= |xs| + 1 + |zs|
    ensures ((xs + [y])[m..] + zs)[n..] == (xs + ([y] + zs))[m + n..]
  {
    assert (xs + [y])[m..] + zs == (xs + ([y] + zs))[m..];
  }

  function PopMany<V>(l: Log<V>, n: nat): Log<V> {
    if n == 0 then l else Step(PopMany(l, n - 1), PopCommit)
  }

  /** Popping one entry per block leads to the state that block was applied to, and never fails on the way. */
  lemma {:induction false} PopBack<V>(l: Log<V>, s: Snapshots<V>, states: seq<Store<V>>, n: nat)
    returns (s': Snapshots<V>)
    requires Holds(l, s, states) && n <= |states|
    ensures Holds(PopMany(l, n), s', states[..|states| - n])
    ensures PopMany(l, n).store == if n == 0 then l.store else states[|states| - n]
    ensures n < |states| ==> Accepts(PopMany(l, n), PopCommit)
  {
    hide Step, Holds;
    if n == 0 {
      assert states[..|states|] == states;
      s' := s;
    } else {
      s' := PopBack(l, s, states, n - 1);
      var held := states[..|states| - (n - 1)];
      s' := PopHolds(PopMany(l, n - 1), s', held);
      assert Init(held) == states[..|states| - n] && Last(held) == states[|states| - n];
    }
    if n < |states| {
      var _ := PopHolds(PopMany(l, n), s', states[..|states| - n]);
    }
  }

  lemma GenesisRetained<V>(store: Store<V>, maxSize: nat)
    requires WellFormed(store) && maxSize >= 1
    ensures Retained(Chain(0, 0, map[]), Fresh(store, maxSize), Snapshots(store, [], 0, maxSize), [])
  {
  }

  lemma FreshStore<V>(store: Store<V>, maxSize: nat)
    ensures Fresh(store, maxSize).store == store
  {
  }

  /** From genesis: after any append-only run, every block above the irreversible one can be popped, and popping n
      blocks gives the state before the n-th block from the end. */
  lemma GenesisRunPopsBack<V>(store: Store<V>, maxSize: nat, bs: seq<SignedBlock<V>>, n: nat)
    requires WellFormed(store) && maxSize >= 1 && RegularRun(Chain(0, 0, map[]), store, bs)
    requires var c := ChainAfter(Chain(0, 0, map[]), store, bs); n <= c.head - c.lib
    ensures var c := ChainAfter(Chain(0, 0, map[]), store, bs);
      && c.head == |bs|
      && (n < c.head - c.lib ==> Accepts(PopMany(LogAfter(Fresh(store, maxSize), bs), n), PopCommit))
      && (n > 0 ==> PopMany(LogAfter(Fresh(store, maxSize), bs), n).store == StatesBefore(store, bs)[|bs| - n])
  {
    hide Holds, PopMany, Accepts, LogAfter, RegularRun, ChainAfter, StatesBefore, WellFormed, Fresh, Effect, Sign;
    var c0, l0, s0 := Chain(0, 0, map[]), Fresh(store, maxSize), Snapshots(store, [], 0, maxSize);
    GenesisRetained(store, maxSize);
    assert l0.store == store by { FreshStore(store, maxSize); }
    var s, states := RunRetains(c0, l0, s0, [], bs);
    var s' := PopBack(LogAfter(l0, bs), s, states, n);
    assert [] + StatesBefore(store, bs) == StatesBefore(store, bs);
  }

  /** Pick the candidate as the code does: collect, select, compare. */
  method UpdateLastIrreversible(c: Chain, active: seq<nat>) returns (lib: nat)
    requires active != []
    ensures lib == if Candidate(c, active) > c.lib then Candidate(c, active) else c.lib
    ensures lib >= c.lib && (lib == c.lib || Reached(c, active, lib))
    ensures forall v: nat :: v > c.lib ==> (Reached(c, active, v) <==> v <= lib)
  {
    var values := [];
    for i := 0 to |active|
      invariant values == Confirmations(c, active)[..i]
    {
      values := values + [LastConfirmed(c, active[i])];
    }
    forall v: nat ensures Reached(c, active, v) <==> v <= Candidate(c, active) {
      ReachedIffBelowCandidate(c, active, v);
    }
    assert values == Confirmations(c, active);
    SortKeeps(values, 0);
    var candidate := Sort(values)[Offset(|values|)];
    lib := if candidate > c.lib then candidate else c.lib;
  }
}
