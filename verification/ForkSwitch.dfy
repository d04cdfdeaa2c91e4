/** Pushing blocks through undo sessions, and switching to a longer fork. */
module ForkSwitch {
  import opened Common
  import opened ObjectStore
  import opened UndoLog
  import opened Blocks
  import F = ForkDatabase

  /** What applying a block does to the objects: its calls on the object store, and whether it throws at the end. */
  datatype Plan<V> = Plan(ops: seq<Op<V>>, ok: bool)

  type Rules<!V> = (Store<V>, Block) -> Plan<V>

  /** Block application is deterministic, closes the sessions it opens, and moves the head from parent to block. */
  ghost predicate Sound<V(!new)>(rules: Rules<V>, headOf: Store<V> -> BlockId) {
    forall s, b {:trigger rules(s, b)} ::
      && Bracketed(s, rules(s, b).ops)
      && (rules(s, b).ok ==> headOf(s) == b.previous && headOf(Effect(s, rules(s, b).ops)) == b.Id())
  }

  ghost function Applied<V>(rules: Rules<V>, s: Store<V>, b: Block): Store<V> {
    Effect(s, rules(s, b).ops)
  }

  /** The state after a whole branch, oldest block first; None when one of its blocks fails. */
  ghost function ApplyAll<V>(rules: Rules<V>, s: Store<V>, bs: seq<Block>): Option<Store<V>>
    decreases |bs|
  {
    if bs == [] then Some(s)
    else if rules(s, bs[0]).ok then ApplyAll(rules, Applied(rules, s, bs[0]), bs[1..])
    else None
  }

  /** The ids of a branch that lies newest first, without its oldest `applied` blocks. */
  ghost function InvalidIds(branch: seq<Block>, applied: nat): set<BlockId> {
    set k | 0 <= k < |branch| - applied :: branch[k].Id()
  }

  /** How many blocks of the branch apply before one fails. */
  ghost function Applicable<V>(rules: Rules<V>, s: Store<V>, bs: seq<Block>): (n: nat)
    ensures n <= |bs|
    decreases |bs|
  {
    if bs == [] || !rules(s, bs[0]).ok then 0 else 1 + Applicable(rules, Applied(rules, s, bs[0]), bs[1..])
  }

  /** The transactions of a run of blocks, in chain order. */
  ghost function Txs(bs: seq<Block>): seq<nat> {
    if bs == [] then [] else bs[0].transactions + Txs(bs[1..])
  }

  lemma TxsFrom(bs: seq<Block>, i: nat)
    requires i <= |bs|
    ensures Txs([]) == []
    ensures i < |bs| ==> Txs(bs[i..]) == bs[i].transactions + Txs(bs[i + 1..])
  {
    if i < |bs| {
      assert bs[i..][1..] == bs[i + 1..];
    }
  }

  function SizeAfter<V>(maxSize: nat, ops: seq<Op<V>>): nat
    decreases |ops|
  {
    if ops == [] then maxSize
    else SizeAfter(if ops[0].SetMaxSize? then ops[0].size else maxSize, ops[1..])
  }

  /** The history limit once the branch has been applied as far as it goes, a failing block included. */
  ghost function SizeAlong<V>(rules: Rules<V>, s: Store<V>, maxSize: nat, bs: seq<Block>): nat
    decreases |bs|
  {
    if bs == [] then maxSize
    else
      var size := SizeAfter(maxSize, rules(s, bs[0]).ops);
      if rules(s, bs[0]).ok then SizeAlong(rules, Applied(rules, s, bs[0]), size, bs[1..]) else size
  }

  /** The limit of the undo history is the limit of the fork database too, and takes effect there at once. */
  function CacheAfter<V>(c: F.Cache, ops: seq<Op<V>>): F.Cache
    decreases |ops|
  {
    if ops == [] then c else CacheAfter(if ops[0].SetMaxSize? then F.Trimmed(c, ops[0].size) else c, ops[1..])
  }

  /** The fork database ends up with the limit of the undo history, and with the blocks that were high enough every time
      the limit was set. */
  lemma {:induction false} CacheAfterIs<V>(c: F.Cache, ops: seq<Op<V>>, id: BlockId)
    ensures var d := CacheAfter(c, ops);
      && d.maxSize == SizeAfter(c.maxSize, ops) && d.head == c.head && d.stamp == c.stamp
      && (id in d.index ==> id in c.index && d.index[id] == c.index[id])
      && (id in d.index <==> id in c.index && forall op <- ops ::
            op.SetMaxSize? && c.head.Some? ==> c.head.value.block.Num() - id.num <= op.size)
    decreases |ops|
  {
    if ops != [] {
      assert ops == [ops[0]] + ops[1..];
      CacheAfterIs(if ops[0].SetMaxSize? then F.Trimmed(c, ops[0].size) else c, ops[1..], id);
    }
  }

  ghost function CacheAlong<V>(rules: Rules<V>, s: Store<V>, c: F.Cache, bs: seq<Block>): F.Cache
    decreases |bs|
  {
    if bs == [] then c
    else
      var left := CacheAfter(c, rules(s, bs[0]).ops);
      if rules(s, bs[0]).ok then CacheAlong(rules, Applied(rules, s, bs[0]), left, bs[1..]) else left
  }

  /** Enough undo history: while the branch is applied on top of the copies `below`, none of them is evicted. */
  ghost predicate Ample<V>(rules: Rules<V>, s: Store<V>, below: seq<Store<V>>, maxSize: nat, bs: seq<Block>)
    decreases |bs|
  {
    bs != [] ==>
      var plan := rules(s, bs[0]);
      && |below| <= maxSize
      && HasRoom(View(s, below + [s], 1), maxSize, plan.ops)
      && (plan.ok ==> Ample(rules, Applied(rules, s, bs[0]), below + [s], SizeAfter(maxSize, plan.ops), bs[1..]))
  }

  /** Enough for a new branch, given newest first, and for the old one should the new one fail. */
  ghost predicate AmpleBoth<V>(rules: Rules<V>, fork: Store<V>, below: seq<Store<V>>, maxSize: nat,
                               first: seq<Block>, second: seq<Block>)
  {
    && Ample(rules, fork, below, maxSize, Rev(first))
    && Ample(rules, fork, below, SizeAlong(rules, fork, maxSize, Rev(first)), Rev(second))
  }

  /** `states[i]` is the state block i was applied to. */
  ghost predicate History<V>(rules: Rules<V>, states: seq<Store<V>>, blocks: seq<Block>, current: Store<V>) {
    && |states| == |blocks|
    && forall i :: 0 <= i < |states| ==>
         rules(states[i], blocks[i]).ok && Applied(rules, states[i], blocks[i]) == After(current, states, i)
  }

  lemma {:induction false} RunSetsMaxSize<V>(l: Log<V>, ops: seq<Op<V>>)
    ensures Run(l, ops).maxSize == SizeAfter(l.maxSize, ops)
    decreases |ops|
  {
    if ops != [] {
      assert Step(l, ops[0]).maxSize == if ops[0].SetMaxSize? then ops[0].size else l.maxSize;
      RunSetsMaxSize(Step(l, ops[0]), ops[1..]);
    }
  }

  /** Following the history from any of its states leads to the current state. */
  lemma {:induction false} HistoryReplays<V>(rules: Rules<V>, states: seq<Store<V>>, blocks: seq<Block>,
                                             current: Store<V>, from: nat)
    requires History(rules, states, blocks, current) && from <= |states|
    ensures ApplyAll(rules, if from < |states| then states[from] else current, blocks[from..]) == Some(current)
    decreases |states| - from
  {
    if from < |states| {
      HistoryReplays(rules, states, blocks, current, from + 1);
      assert blocks[from..][1..] == blocks[from + 1..];
      assert Applied(rules, states[from], blocks[from]) == After(current, states, from);
    }
  }

  /** Above the fork point no state has the fork point as its head: heights grow by one per block. */
  lemma {:induction false} HeadsGrow<V(!new)>(rules: Rules<V>, headOf: Store<V> -> BlockId, states: seq<Store<V>>,
                            blocks: seq<Block>, current: Store<V>, from: nat)
    requires Sound(rules, headOf) && History(rules, states, blocks, current) && from < |states|
    ensures headOf(states[from]) == blocks[from].previous
    ensures headOf(current).num == headOf(states[from]).num + |states| - from
    decreases |states| - from
  {
    var s, b := states[from], blocks[from];
    assert rules(s, b).ok && Applied(rules, s, b) == After(current, states, from);
    assert headOf(Applied(rules, s, b)) == b.Id();
    if from + 1 < |states| {
      HeadsGrow(rules, headOf, states, blocks, current, from + 1);
    }
  }

  /** Inner sessions are opened at most `depth` deep, and the history limit is never set below `bound`. */
  ghost predicate Calm<V>(v: View<V>, ops: seq<Op<V>>, bound: nat, depth: nat)
    decreases |ops|
  {
    ops != [] ==>
      && (ops[0].Start? ==> v.active <= depth)
      && (ops[0].SetMaxSize? ==> ops[0].size >= bound)
      && Calm(ViewStep(v, ops[0]), ops[1..], bound, depth)
  }

  /** Every block sets the limit to the distance from the irreversible block to the head plus one. So a limit of
      at least height + 1 + depth says that the irreversible block stays `depth` - 1 blocks below the fork point. */
  ghost predicate CalmBranch<V>(rules: Rules<V>, s: Store<V>, height: nat, bs: seq<Block>, depth: nat)
    decreases |bs|
  {
    bs != [] ==>
      var plan := rules(s, bs[0]);
      && Calm(View(s, [s], 1), plan.ops, height + 1 + depth, depth)
      && (plan.ok ==>
            && SizeAfter(0, plan.ops) >= height + 1 + depth
            && CalmBranch(rules, Applied(rules, s, bs[0]), height + 1, bs[1..], depth))
  }

  lemma {:induction false} CalmHasRoom<V>(below: seq<Store<V>>, v: View<V>, maxSize: nat, ops: seq<Op<V>>, bound: nat,
                                          depth: nat)
    requires |v.kept| == v.active && Inside(v, ops, 1) && Calm(v, ops, bound, depth)
    requires |below| + depth <= maxSize && |below| + depth <= bound
    ensures HasRoom(Prefixed(below, v), maxSize, ops)
    decreases |ops|
  {
    if ops != [] {
      PrefixStep(below, v, ops[0]);
      assert ViewStep(v, ops[0]).active >= 1;
      var size := if ops[0].SetMaxSize? then ops[0].size else maxSize;
      CalmHasRoom(below, ViewStep(v, ops[0]), size, ops[1..], bound, depth);
    }
  }

  lemma {:induction false} SizeIsSet<V>(small: nat, large: nat, ops: seq<Op<V>>)
    requires small <= large
    ensures SizeAfter(small, ops) <= SizeAfter(large, ops)
    decreases |ops|
  {
    if ops != [] && !ops[0].SetMaxSize? {
      SizeIsSet(small, large, ops[1..]);
    }
  }

  /** Room in plain terms: if no block of the branch moves the irreversible block past the fork point, nothing
      that a rollback needs is evicted. */
  lemma {:induction false} CalmIsAmple<V(!new)>(rules: Rules<V>, headOf: Store<V> -> BlockId, s: Store<V>,
                                                below: seq<Store<V>>, maxSize: nat, bs: seq<Block>, depth: nat)
    requires Sound(rules, headOf) && CalmBranch(rules, s, |below|, bs, depth)
    requires |below| + depth <= maxSize
    ensures Ample(rules, s, below, maxSize, bs)
    decreases |bs|
  {
    if bs != [] {
      var plan, v := rules(s, bs[0]), View(s, [s], 1);
      assert Bracketed(s, plan.ops);
      CalmHasRoom(below, v, maxSize, plan.ops, |below| + 1 + depth, depth);
      assert Prefixed(below, v) == View(s, below + [s], 1);
      if plan.ok {
        SizeIsSet(0, maxSize, plan.ops);
        CalmIsAmple(rules, headOf, Applied(rules, s, bs[0]), below + [s], SizeAfter(maxSize, plan.ops), bs[1..], depth);
      }
    }
  }

  /** No session is open and the newest undo entries restore `states`. */
  ghost predicate Holds<V>(l: Log<V>, s: Snapshots<V>, states: seq<Store<V>>) {
    l.active == 0 && Refines(l, s) && Backed(s, View(l.store, states, 0))
  }

  /** A session, the calls made in it, and its end by commit or by being dropped. */
  function SessionLog<V>(l: Log<V>, plan: Plan<V>): Log<V> {
    Step(Run(Step(l, Start(false)), plan.ops), if plan.ok then Commit else Undo)
  }

  lemma SessionHolds<V>(l: Log<V>, s: Snapshots<V>, states: seq<Store<V>>, plan: Plan<V>) returns (s': Snapshots<V>)
    requires Holds(l, s, states) && |states| <= l.maxSize && Bracketed(l.store, plan.ops)
    requires HasRoom(View(l.store, states + [l.store], 1), l.maxSize, plan.ops)
    ensures var l' := SessionLog(l, plan);
      && l'.maxSize == SizeAfter(l.maxSize, plan.ops)
      && l'.store == (if plan.ok then Effect(l.store, plan.ops) else l.store)
      && Holds(l', s', if plan.ok then states + [l.store] else states)
  {
    var mid := Run(Step(l, Start(false)), plan.ops);
    var sMid := SessionRun(l, s, states, plan.ops);
    RunSetsMaxSize(Step(l, Start(false)), plan.ops);
    SessionEnds(mid, sMid, states, l.store, Effect(l.store, plan.ops), plan.ok);
    s' := SpecStep(sMid, if plan.ok then Commit else Undo);
  }

  lemma SessionEnds<V>(l: Log<V>, s: Snapshots<V>, states: seq<Store<V>>, start: Store<V>, end: Store<V>, ok: bool)
    requires Refines(l, s) && Backed(s, View(end, states + [start], 1))
    ensures var op := if ok then Commit else Undo; var l' := Step(l, op);
      l'.maxSize == l.maxSize && l'.store == (if ok then end else start) &&
      Holds(l', SpecStep(s, op), if ok then states + [start] else states)
  {
    var v, op := View(end, states + [start], 1), if ok then Commit else Undo;
    StepRefines(l, s, op);
    StepKeepsBacking(s, v, op);
    assert Init(states + [start]) == states;
  }

  lemma PopHolds<V>(l: Log<V>, s: Snapshots<V>, states: seq<Store<V>>) returns (s': Snapshots<V>)
    requires Holds(l, s, states) && states != []
    ensures Accepts(l, PopCommit)
    ensures var l' := Step(l, PopCommit);
      l'.maxSize == l.maxSize && l'.store == Last(states) && Holds(l', s', Init(states))
  {
    s' := SpecStep(s, PopCommit);
    StepRefines(l, s, PopCommit);
    StepKeepsBacking(s, View(l.store, states, 0), PopCommit);
  }

  /** Forgetting how far back the undo entries are known costs nothing. */
  lemma HoldsSuffix<V>(l: Log<V>, s: Snapshots<V>, states: seq<Store<V>>, from: nat)
    requires Holds(l, s, states) && from <= |states|
    ensures Holds(l, s, states[from..])
  {
    assert s.saved[|s.saved| - |states[from..]|..] == s.saved[|s.saved| - |states|..][from..];
  }

  lemma HistorySuffix<V>(rules: Rules<V>, states: seq<Store<V>>, blocks: seq<Block>, current: Store<V>, from: nat)
    requires History(rules, states, blocks, current) && from <= |states|
    ensures History(rules, states[from..], blocks[from..], current)
  {
    forall i | 0 <= i < |states[from..]|
      ensures rules(states[from..][i], blocks[from..][i]).ok
      ensures Applied(rules, states[from..][i], blocks[from..][i]) == After(current, states[from..], i)
    {
      assert Applied(rules, states[from + i], blocks[from + i]) == After(current, states, from + i);
    }
  }

  lemma HistoryGrows<V>(rules: Rules<V>, states: seq<Store<V>>, blocks: seq<Block>, current: Store<V>, b: Block)
    requires History(rules, states, blocks, current) && rules(current, b).ok
    ensures History(rules, states + [current], blocks + [b], Applied(rules, current, b))
  {
    var states', next := states + [current], Applied(rules, current, b);
    forall i | 0 <= i < |states'|
      ensures rules(states'[i], (blocks + [b])[i]).ok
      ensures Applied(rules, states'[i], (blocks + [b])[i]) == After(next, states', i)
    {
      if i < |states| {
        assert Applied(rules, states[i], blocks[i]) == After(current, states, i);
      }
    }
  }

  lemma HistoryShrinks<V>(rules: Rules<V>, states: seq<Store<V>>, blocks: seq<Block>, current: Store<V>)
    requires History(rules, states, blocks, current) && states != []
    ensures History(rules, Init(states), Init(blocks), Last(states))
  {
    forall i | 0 <= i < |states| - 1
      ensures rules(Init(states)[i], Init(blocks)[i]).ok
      ensures Applied(rules, Init(states)[i], Init(blocks)[i]) == After(Last(states), Init(states), i)
    {
      assert Applied(rules, states[i], blocks[i]) == After(current, states, i);
    }
  }
}
