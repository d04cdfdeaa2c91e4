/** Switching between two branches of the chain, as far as it depends on the fork database. */
module BranchSwitch {
  import opened Common
  import opened ObjectStore
  import opened UndoLog
  import opened Blocks
  import opened ForkSwitch
  import F = ForkDatabase

  /** A chain that starts at block 1. */
  ghost predicate Linked(blocks: seq<Block>) {
    forall i :: 0 <= i < |blocks| ==> blocks[i].previous == HeadId(blocks[..i])
  }

  ghost function HeadId(blocks: seq<Block>): BlockId { if blocks == [] then ZERO_ID else Last(blocks).Id() }

  lemma {:induction false} LinkedHeight(blocks: seq<Block>)
    requires Linked(blocks)
    ensures HeadId(blocks).num == |blocks|
    decreases |blocks|
  {
    if blocks != [] {
      LinkedInit(blocks);
      LinkedHeight(Init(blocks));
    }
  }

  lemma LinkedInit(blocks: seq<Block>)
    requires Linked(blocks) && blocks != []
    ensures Linked(Init(blocks)) && Last(blocks).previous == HeadId(Init(blocks))
  {
    forall i | 0 <= i < |Init(blocks)| ensures Init(blocks)[i].previous == HeadId(Init(blocks)[..i]) {
      assert Init(blocks)[..i] == blocks[..i];
    }
  }

  lemma LinkedMore(blocks: seq<Block>, b: Block)
    requires Linked(blocks) && b.previous == HeadId(blocks)
    ensures Linked(blocks + [b])
  {
    forall i | 0 <= i < |blocks + [b]| ensures (blocks + [b])[i].previous == HeadId((blocks + [b])[..i]) {
      assert (blocks + [b])[..i] == blocks[..i];
      assert i == |blocks| ==> blocks[..i] == blocks;
    }
  }

  /** An id names one block: hashes do not collide. */
  ghost predicate Named(named: BlockId -> Block, blocks: seq<Block>) {
    forall b <- blocks :: named(b.Id()) == b
  }

  ghost predicate NamedIndex(named: BlockId -> Block, index: F.Index) {
    forall id <- index :: index[id].block.Id() == id && named(id) == index[id].block
  }

  function BlocksOf(items: seq<F.Item>): (r: seq<Block>)
    ensures |r| == |items|
  {
    seq(|items|, i requires 0 <= i < |items| => items[i].block)
  }

  /** The ancestry of the chain's head in the fork database is the chain itself, as far as it is cached. */
  lemma AncestryIsChain(named: BlockId -> Block, index: F.Index, blocks: seq<Block>, xs: seq<F.Item>)
    requires NamedIndex(named, index) && Named(named, blocks) && Linked(blocks) && F.Chain(index, HeadId(blocks), xs)
    ensures |xs| <= |blocks| && blocks[|blocks| - |xs|..] == Rev(BlocksOf(xs))
  {
    assert xs != [];
    hide NamedIndex, Named, Linked, F.Chain;
    ItemIsBlock(named, index, blocks, xs, |xs| - 1);
    forall i | 0 <= i < |xs| ensures xs[i].block == blocks[|blocks| - 1 - i] {
      ItemIsBlock(named, index, blocks, xs, i);
    }
    SuffixReversed(blocks, xs);
  }

  lemma OldestIsFirst(xs: seq<F.Item>)
    requires xs != []
    ensures Rev(BlocksOf(xs))[0] == xs[|xs| - 1].block
  {
  }

  lemma SuffixReversed(blocks: seq<Block>, xs: seq<F.Item>)
    requires |xs| <= |blocks| && forall i :: 0 <= i < |xs| ==> xs[i].block == blocks[|blocks| - 1 - i]
    ensures blocks[|blocks| - |xs|..] == Rev(BlocksOf(xs))
  {
  }

  lemma {:induction false} ItemIsBlock(named: BlockId -> Block, index: F.Index, blocks: seq<Block>, xs: seq<F.Item>,
                                       i: nat)
    requires NamedIndex(named, index) && Named(named, blocks) && Linked(blocks)
    requires F.Chain(index, HeadId(blocks), xs) && i < |xs|
    ensures i < |blocks| && xs[i].block == blocks[|blocks| - 1 - i]
  {
    if i > 0 {
      ItemIsBlock(named, index, blocks, xs, i - 1);
      var k := |blocks| - i;
      assert F.Prev(index, xs[i - 1]) == Some(xs[i]);
      assert blocks[k].previous == HeadId(blocks[..k]);
      assert k > 0 ==> HeadId(blocks[..k]) == blocks[k - 1].Id() && blocks[k - 1] in blocks;
    } else {
      assert blocks != [] ==> Last(blocks) in blocks;
    }
  }

  lemma FewerAreNamed(named: BlockId -> Block, index: F.Index, ids: set<BlockId>)
    requires NamedIndex(named, index)
    ensures NamedIndex(named, index - ids) && F.Valid(index - ids)
  {
  }

  lemma BothAreNamed(named: BlockId -> Block, a: F.Index, b: F.Index)
    requires NamedIndex(named, a) && NamedIndex(named, b)
    ensures NamedIndex(named, a + b) && F.Valid(a + b)
  {
  }

  lemma HeldIsNamed(named: BlockId -> Block, index: F.Index, xs: seq<F.Item>)
    requires NamedIndex(named, index)
    ensures NamedIndex(named, F.Held(index, xs))
  {
  }

  lemma ChainNamed(named: BlockId -> Block, index: F.Index, start: BlockId, xs: seq<F.Item>)
    requires NamedIndex(named, index) && F.Chain(index, start, xs)
    ensures Named(named, BlocksOf(xs))
  {
    forall i | 0 <= i < |xs| ensures named(xs[i].block.Id()) == xs[i].block {
      F.ChainHeights(index, start, xs, i);
    }
  }

  lemma PushedNamed(named: BlockId -> Block, c: F.Cache, b: Block)
    requires NamedIndex(named, c.index) && named(b.Id()) == b
    ensures NamedIndex(named, F.Pushed(c, b).index)
  {
  }

  lemma TrimmedNamed(named: BlockId -> Block, c: F.Cache, size: nat)
    requires NamedIndex(named, c.index)
    ensures NamedIndex(named, F.Trimmed(c, size).index) && F.Trimmed(c, size).index.Keys <= c.index.Keys
    ensures F.Trimmed(c, size).head == c.head
  {
  }

  /** What the fork database forgets while blocks are applied leaves a part of it. */
  lemma {:induction false} CacheStaysNamed<V>(named: BlockId -> Block, c: F.Cache, ops: seq<Op<V>>)
    requires NamedIndex(named, c.index)
    ensures NamedIndex(named, CacheAfter(c, ops).index) && CacheAfter(c, ops).index.Keys <= c.index.Keys
    ensures CacheAfter(c, ops).head == c.head
    decreases |ops|
  {
    if ops != [] {
      hide NamedIndex, F.Trimmed;
      if ops[0].SetMaxSize? {
        TrimmedNamed(named, c, ops[0].size);
      }
      CacheStaysNamed(named, if ops[0].SetMaxSize? then F.Trimmed(c, ops[0].size) else c, ops[1..]);
    }
  }

  lemma {:induction false} CacheAlongNamed<V>(rules: Rules<V>, s: Store<V>, named: BlockId -> Block, c: F.Cache,
                                              bs: seq<Block>)
    requires NamedIndex(named, c.index)
    ensures NamedIndex(named, CacheAlong(rules, s, c, bs).index)
    decreases |bs|
  {
    if bs != [] {
      hide NamedIndex, CacheAfter;
      CacheStaysNamed(named, c, rules(s, bs[0]).ops);
      if rules(s, bs[0]).ok {
        CacheAlongNamed(rules, Applied(rules, s, bs[0]), named, CacheAfter(c, rules(s, bs[0]).ops), bs[1..]);
      }
    }
  }

  // ----- when a switch gets stuck

  /** How a switch ends. */
  datatype Switching = Switched | RolledBack | Stuck

  ghost predicate Poppable(c: F.Cache, n: nat) {
    F.Valid(c.index) && c.head.Some? && n <= F.Depth(c.index, c.head.value)
  }

  /** The items that are alive when a rollback begins: the index, trimmed by the blocks that were applied and
      without the invalid ones, and the items of the two branches, which the switch itself holds on to. */
  ghost function LiveThen<V>(rules: Rules<V>, fork: Store<V>, c: F.Cache, first: seq<F.Item>,
                             second: seq<F.Item>): F.Index
    requires Poppable(c, |second|)
  {
    LiveAt(rules, fork, c.(head := Some(F.Back(c.index, c.head.value, |second|))), first,
        F.Held(c.index, first + second))
  }

  /** The same, seen from the fork point: `c` is the fork database there, `held` the items that are held. */
  ghost function LiveAt<V>(rules: Rules<V>, fork: Store<V>, c: F.Cache, first: seq<F.Item>, held: F.Index): F.Index {
    var bs := Rev(BlocksOf(first));
    CacheAlong(rules, fork, c, bs).index - InvalidIds(BlocksOf(first), Applicable(rules, fork, bs)) + held
  }

  lemma LiveIsNamed<V>(rules: Rules<V>, fork: Store<V>, named: BlockId -> Block, c: F.Cache, first: seq<F.Item>,
                       held: F.Index)
    requires NamedIndex(named, c.index) && NamedIndex(named, held)
    ensures NamedIndex(named, LiveAt(rules, fork, c, first, held)) && F.Valid(LiveAt(rules, fork, c, first, held))
  {
    hide NamedIndex, CacheAlong, InvalidIds, Applicable;
    var bs := Rev(BlocksOf(first));
    var trimmed := CacheAlong(rules, fork, c, bs).index;
    CacheAlongNamed(rules, fork, named, c, bs);
    FewerAreNamed(named, trimmed, InvalidIds(BlocksOf(first), Applicable(rules, fork, bs)));
    BothAreNamed(named, trimmed - InvalidIds(BlocksOf(first), Applicable(rules, fork, bs)), held);
  }

  /** A rollback is complete exactly when the old head has an ancestor for every block that was applied. */
  ghost predicate Rollable<V>(rules: Rules<V>, fork: Store<V>, live: F.Index, first: seq<F.Item>, oldHead: F.Item) {
    F.Valid(live) && Applicable(rules, fork, Rev(BlocksOf(first))) <= F.Depth(live, oldHead)
  }

  /** When a switch stops half-way: live ancestors run out, those of the new head while the old branch is popped, or
      those of the old head while a new branch that failed is popped. */
  ghost predicate GetsStuck<V>(rules: Rules<V>, fork: Store<V>, c: F.Cache, first: seq<F.Item>, second: seq<F.Item>)
    requires second != []
  {
    || !Poppable(c, |second|)
    || (ApplyAll(rules, fork, Rev(BlocksOf(first))).None?
        && !Rollable(rules, fork, LiveThen(rules, fork, c, first, second), first, second[0]))
  }

  /** Where a rollback stops: as many blocks of the new branch are left as the old head lacked ancestors. */
  ghost predicate StoppedAt<V>(rules: Rules<V>, fork: Store<V>, base: seq<Block>, first: seq<F.Item>, live: F.Index,
                               oldHead: F.Item, blocks: seq<Block>, store: Store<V>)
  {
    var bs := Rev(BlocksOf(first));
    && F.Valid(live) && F.Depth(live, oldHead) < Applicable(rules, fork, bs) < |bs|
    && var left := Applicable(rules, fork, bs) - F.Depth(live, oldHead);
    && blocks == base + bs[..left] && ApplyAll(rules, fork, bs[..left]) == Some(store)
  }

  /** How a change of branches ends, in full. */
  ghost predicate Ended<V>(rules: Rules<V>, fork: Store<V>, base: seq<Block>, c: F.Cache, first: seq<F.Item>,
                           second: seq<F.Item>, how: Switching, store: Store<V>, blocks: seq<Block>)
    requires F.Valid(c.index) && c.head.Some? && second != []
  {
    var bs, depth := Rev(BlocksOf(first)), F.Depth(c.index, c.head.value);
    && (how.Stuck? <==> GetsStuck(rules, fork, c, first, second))
    && (!how.Stuck? ==> (how.Switched? <==> ApplyAll(rules, fork, bs).Some?))
    && (how.Switched? ==> ApplyAll(rules, fork, bs) == Some(store) && blocks == base + bs)
    && (how.Stuck? && depth < |second| ==> blocks == base + Rev(BlocksOf(second))[..|second| - depth])
    && (how.Stuck? && depth >= |second| ==>
          StoppedAt(rules, fork, base, first, LiveThen(rules, fork, c, first, second), second[0], blocks, store))
  }

  lemma {:induction false} ApplicableIsShort<V>(rules: Rules<V>, s: Store<V>, bs: seq<Block>)
    ensures Applicable(rules, s, bs) <= |bs| && (ApplyAll(rules, s, bs).None? <==> Applicable(rules, s, bs) < |bs|)
    decreases |bs|
  {
    if bs != [] && rules(s, bs[0]).ok {
      ApplicableIsShort(rules, Applied(rules, s, bs[0]), bs[1..]);
    }
  }

  /** The old head keeps at least the ancestors on its own branch. */
  lemma OldHeadDepth<V(!new)>(rules: Rules<V>, fork: Store<V>, named: BlockId -> Block, c: F.Cache, oldHead: BlockId,
                              first: seq<F.Item>, second: seq<F.Item>)
    requires NamedIndex(named, c.index) && Poppable(c, |second|) && F.Chain(c.index, oldHead, second)
    ensures F.Valid(LiveThen(rules, fork, c, first, second))
    ensures var live := LiveThen(rules, fork, c, first, second);
      && F.Depth(live, second[0]) >= |second| - 1
      && (F.Depth(live, second[0]) == |second| - 1 <==> F.Prev(live, second[|second| - 1]).None?)
  {
    var held, at := F.Held(c.index, first + second), c.(head := Some(F.Back(c.index, c.head.value, |second|)));
    HeldIsNamed(named, c.index, first + second);
    LiveIsNamed(rules, fork, named, at, first, held);
    hide NamedIndex, CacheAlong, InvalidIds, Applicable;
    var bs, live := Rev(BlocksOf(first)), LiveThen(rules, fork, c, first, second);
    F.HeldChain(c.index, oldHead, second, first + second,
                CacheAlong(rules, fork, at, bs).index - InvalidIds(BlocksOf(first), Applicable(rules, fork, bs)));
    F.ChainDepth(live, oldHead, second, 0);
  }

  /** When the new branch is one block longer, the switch gets stuck exactly if only its newest block fails and the
      parent of the fork is not a live ancestor any more: without that parent the old head has one ancestor too few. */
  lemma StuckIff<V(!new)>(rules: Rules<V>, fork: Store<V>, named: BlockId -> Block, c: F.Cache, oldHead: BlockId,
                          first: seq<F.Item>, second: seq<F.Item>)
    requires NamedIndex(named, c.index) && Poppable(c, |second|) && F.Chain(c.index, oldHead, second)
    requires |first| == |second| + 1
    ensures GetsStuck(rules, fork, c, first, second) <==>
      && Applicable(rules, fork, Rev(BlocksOf(first))) == |second|
      && F.Prev(LiveThen(rules, fork, c, first, second), second[|second| - 1]).None?
  {
    ApplicableIsShort(rules, fork, Rev(BlocksOf(first)));
    OldHeadDepth(rules, fork, named, c, oldHead, first, second);
    hide LiveThen, NamedIndex, ApplyAll, Applicable, F.Depth;
  }

  /** There is no way back to a chain that parted before block 1 when only the newest block fails: its first block
      has no parent, so the last pop is refused. */
  lemma NoWayBackToGenesis<V(!new)>(rules: Rules<V>, fork: Store<V>, named: BlockId -> Block, c: F.Cache,
                                    oldHead: BlockId, first: seq<F.Item>, second: seq<F.Item>)
    requires NamedIndex(named, c.index) && F.Chain(c.index, oldHead, second) && |first| == |second| + 1
    requires second[|second| - 1].block.previous == ZERO_ID
    requires Applicable(rules, fork, Rev(BlocksOf(first))) == |second|
    ensures GetsStuck(rules, fork, c, first, second)
  {
    if Poppable(c, |second|) {
      StuckIff(rules, fork, named, c, oldHead, first, second);
      OldHeadDepth(rules, fork, named, c, oldHead, first, second);
      var live := LiveThen(rules, fork, c, first, second);
      hide LiveThen, GetsStuck, Applicable;
      assert ZERO_ID !in live;
    }
  }

  /** Two branches of block 1: the shorter has one block, the longer two. Whenever the first of these applies and the
      second does not, the switch gets stuck. */
  lemma StuckAtGenesis<V(!new)>(rules: Rules<V>, genesis: Store<V>)
    ensures var (b1, a1, a2) := (Block(ZERO_ID, 7, []), Block(ZERO_ID, 8, []), Block(BlockId(1, 8), 9, []));
      var (ib, i1, i2) := (F.Item(b1, 0, None), F.Item(a1, 1, None), F.Item(a2, 2, Some(1)));
      var c := F.Cache(map[b1.Id() := ib, a1.Id() := i1, a2.Id() := i2], Some(i2), 1024, 3);
      && F.Valid(c.index) && F.Branches(c.index, a2.Id(), b1.Id(), [i2, i1], [ib])
      && (rules(genesis, a1).ok && !rules(Applied(rules, genesis, a1), a2).ok ==>
            GetsStuck(rules, genesis, c, [i2, i1], [ib]))
  {
    var (b1, a1, a2) := (Block(ZERO_ID, 7, []), Block(ZERO_ID, 8, []), Block(BlockId(1, 8), 9, []));
    var (ib, i1, i2) := (F.Item(b1, 0, None), F.Item(a1, 1, None), F.Item(a2, 2, Some(1)));
    var c := F.Cache(map[b1.Id() := ib, a1.Id() := i1, a2.Id() := i2], Some(i2), 1024, 3);
    assert F.Prev(c.index, i2) == Some(i1);
    assert F.Chain(c.index, a2.Id(), [i2, i1]) && F.Chain(c.index, b1.Id(), [ib]);
    assert F.Branches(c.index, a2.Id(), b1.Id(), [i2, i1], [ib]);
    if rules(genesis, a1).ok && !rules(Applied(rules, genesis, a1), a2).ok {
      var named := (id: BlockId) => if id == b1.Id() then b1 else if id == a1.Id() then a1 else a2;
      assert NamedIndex(named, c.index);
      hide F.Branches, F.Chain, NamedIndex;
      var bs := Rev(BlocksOf([i2, i1]));
      assert bs == [a1, a2] && bs[1..] == [a2];
      assert Applicable(rules, Applied(rules, genesis, a1), [a2]) == 0;
      assert Applicable(rules, genesis, bs) == 1;
      NoWayBackToGenesis(rules, genesis, named, c, b1.Id(), [i2, i1], [ib]);
    }
  }

  /** A switch that gets stuck on the way back to a chain one block shorter has left the old head. */
  lemma StuckElsewhere<V>(rules: Rules<V>, fork: Store<V>, base: seq<Block>, c: F.Cache, start: BlockId, head: BlockId,
                          first: seq<F.Item>, second: seq<F.Item>, blocks: seq<Block>, store: Store<V>)
    requires Poppable(c, |second|) && F.Chain(c.index, start, first) && |first| == |second| + 1 > 1
    requires Ended(rules, fork, base, c, first, second, Stuck, store, blocks) && Linked(blocks)
    requires head.num == |base| + |second| && first[0].block.previous != head
    ensures HeadId(blocks) != head
  {
    hide Linked, ApplyAll, Applicable, GetsStuck, LiveThen;
    LinkedHeight(blocks);
    if |blocks| == head.num {
      assert F.Prev(c.index, first[0]) == Some(first[1]);
      assert Last(blocks) == first[1].block;
    }
  }

  // ----- steady states

  /** Nothing is cached above the chain's head, and the head of the fork database is not above it either, unless it
      builds on it directly. */
  ghost predicate SteadyAt(c: F.Cache, blocks: seq<Block>) {
    && (forall id <- c.index :: id.num <= |blocks|)
    && (c.head.None? ==> c.index == map[] && blocks == [])
    && (c.head.Some? ==> c.head.value.block.Num() <= |blocks| || c.head.value.block.previous == HeadId(blocks))
  }

  /** The fork database has a head that is higher than the chain's and does not build on it. */
  ghost predicate Higher(c: F.Cache, blocks: seq<Block>) {
    c.head.Some? && c.head.value.block.previous != HeadId(blocks) && c.head.value.block.Num() > |blocks|
  }

  /** The branches between which a fork database would switch. */
  ghost predicate Forked(c: F.Cache, blocks: seq<Block>, first: seq<F.Item>, second: seq<F.Item>) {
    c.head.Some? && F.Branches(c.index, c.head.value.block.Id(), HeadId(blocks), first, second)
  }

  /** In a steady state a push caches nothing higher than one block above the chain; what it caches there is `b`. */
  lemma SteadyPush(c: F.Cache, b: Block, blocks: seq<Block>)
    requires F.Valid(c.index) && Linked(blocks) && SteadyAt(c, blocks) && F.Links(c, b)
    ensures var d := F.Pushed(c, b);
      && F.Valid(d.index) && (forall id <- d.index :: id.num <= |blocks| || id == b.Id())
      && b.Num() <= d.head.value.block.Num()
      && (Higher(d, blocks) ==>
            && d.head.value.block == b && (c.head.Some? ==> b.Num() == |blocks| + 1)
            && (b.Id() in d.index ==> d.index[b.Id()] == d.head.value))
  {
    LinkedHeight(blocks);
    hide Linked;
  }

  /** So a switch in a steady state leads from a branch to one that is just one block longer, and the fork database has
      all the ancestors that popping the old branch takes. */
  lemma SteadySwitch(c: F.Cache, b: Block, blocks: seq<Block>, first: seq<F.Item>, second: seq<F.Item>)
    requires F.Valid(c.index) && Linked(blocks) && SteadyAt(c, blocks) && F.Links(c, b)
    requires Higher(F.Pushed(c, b), blocks) && Forked(F.Pushed(c, b), blocks, first, second)
    ensures Poppable(F.Pushed(c, b), |second|) && c.head.Some?
    ensures |first| == |second| + 1 && second[0].block.Num() == |blocks|
    ensures first[0].block == b == F.Pushed(c, b).head.value.block
  {
    SteadyPush(c, b, blocks);
    LinkedHeight(blocks);
    NeedsHead(c, b, blocks, first, second);
    var d := F.Pushed(c, b);
    var start := d.head.value.block.Id();
    hide F.Pushed, F.Links, Linked;
    F.ChainHeights(d.index, start, first, 0);
    F.ChainHeights(d.index, HeadId(blocks), second, 0);
    F.ChainHeights(d.index, start, first, |first| - 1);
    F.ChainHeights(d.index, HeadId(blocks), second, |second| - 1);
    F.ChainDepth(d.index, start, first, 0);
  }

  /** Without a head in the fork database there is no branch to switch from. */
  lemma NeedsHead(c: F.Cache, b: Block, blocks: seq<Block>, first: seq<F.Item>, second: seq<F.Item>)
    requires F.Valid(F.Pushed(c, b).index) && SteadyAt(c, blocks) && Forked(F.Pushed(c, b), blocks, first, second)
    ensures c.head.Some?
  {
    assert ZERO_ID !in F.Pushed(c, b).index;
  }

  /** A push onto the chain keeps the state steady, whether the block applies or not. */
  lemma SteadyExtended(c: F.Cache, b: Block, blocks: seq<Block>, left: F.Cache, ok: bool)
    requires F.Valid(c.index) && Linked(blocks) && SteadyAt(c, blocks) && F.Links(c, b)
    requires F.Pushed(c, b).head.value.block.previous == HeadId(blocks)
    requires left.index.Keys <= F.Pushed(c, b).index.Keys && left.head == F.Pushed(c, b).head
    requires if ok then b.previous == HeadId(blocks) else b.Id() !in left.index
    ensures SteadyAt(left, if ok then blocks + [b] else blocks)
  {
    SteadyPush(c, b, blocks);
    LinkedHeight(blocks);
    hide F.Pushed, F.Links, Linked, Higher;
  }

  lemma SteadyCached(c: F.Cache, b: Block, blocks: seq<Block>)
    requires F.Valid(c.index) && Linked(blocks) && SteadyAt(c, blocks) && F.Links(c, b)
    requires F.Pushed(c, b).head.value.block.Num() <= |blocks|
    ensures SteadyAt(F.Pushed(c, b), blocks)
  {
    SteadyPush(c, b, blocks);
    hide F.Links, Linked, Higher, F.NewHead, F.Pruned;
  }

  /** So does a change of branches that ends on one of the two. */
  lemma SteadyChanged(c: F.Cache, b: Block, blocks: seq<Block>, first: seq<F.Item>, second: seq<F.Item>, how: Switching,
                      left: F.Cache, now: seq<Block>)
    requires F.Valid(c.index) && Linked(blocks) && SteadyAt(c, blocks) && F.Links(c, b)
    requires Higher(F.Pushed(c, b), blocks) && Forked(F.Pushed(c, b), blocks, first, second)
    requires left.index.Keys <= F.Pushed(c, b).index.Keys && left.head.Some? && first != [] && second != []
    requires !how.Stuck?
    requires how.Switched? ==>
      |now| == |blocks| - |second| + |first| && left.head.value.block.Num() <= F.Pushed(c, b).head.value.block.Num()
    requires how.RolledBack? ==>
      now == blocks && first[0].block.Id() !in left.index && left.head.value.block.Num() <= second[0].block.Num()
    ensures SteadyAt(left, now)
  {
    SteadyPush(c, b, blocks);
    SteadySwitch(c, b, blocks, first, second);
    hide F.Pushed, F.Links, Linked, Forked, Poppable;
  }

  /** Only the newest block of the new branch fails, and the parent of the fork is not a live ancestor any more. */
  ghost predicate OnlyNewestFails<V>(rules: Rules<V>, fork: Store<V>, c: F.Cache, first: seq<F.Item>,
                                     second: seq<F.Item>) {
    && second != [] && Poppable(c, |second|)
    && Applicable(rules, fork, Rev(BlocksOf(first))) == |second|
    && F.Prev(LiveThen(rules, fork, c, first, second), second[|second| - 1]).None?
  }

  /** A switch in a steady state: when it gets stuck, and that it has then left the old head. */
  lemma SteadyEnd<V(!new)>(
      rules: Rules<V>, fork: Store<V>, named: BlockId -> Block, c: F.Cache, b: Block, blocks: seq<Block>,
      first: seq<F.Item>, second: seq<F.Item>, how: Switching, store: Store<V>, now: seq<Block>)
    requires NamedIndex(named, F.Pushed(c, b).index) && F.Valid(c.index)
    requires Linked(blocks) && SteadyAt(c, blocks) && F.Links(c, b) && Linked(now)
    requires Higher(F.Pushed(c, b), blocks) && Forked(F.Pushed(c, b), blocks, first, second) && 0 < |second| <= |blocks|
    requires Ended(rules, fork, blocks[..|blocks| - |second|], F.Pushed(c, b), first, second, how, store, now)
    ensures |first| == |second| + 1 && Poppable(F.Pushed(c, b), |second|)
    ensures how.Stuck? <==> OnlyNewestFails(rules, fork, F.Pushed(c, b), first, second)
    ensures how.Stuck? ==> HeadId(now) != HeadId(blocks)
  {
    var d := F.Pushed(c, b);
    SteadySwitch(c, b, blocks, first, second);
    LinkedHeight(blocks);
    StuckIff(rules, fork, named, d, HeadId(blocks), first, second);
    hide F.Pushed, F.Links, SteadyAt, Linked, Poppable, NamedIndex, GetsStuck, LiveThen, Applicable, ApplyAll;
    if how.Stuck? {
      StuckElsewhere(rules, fork, blocks[..|blocks| - |second|], d, d.head.value.block.Id(), HeadId(blocks), first,
          second, now, store);
    }
  }

  lemma ForkedFacts(c: F.Cache, blocks: seq<Block>, first: seq<F.Item>, second: seq<F.Item>)
    requires Forked(c, blocks, first, second)
    ensures first != [] && second != []
  {
  }

  /** The old branch could not be popped completely. */
  lemma EndsEarly<V>(rules: Rules<V>, fork: Store<V>, base: seq<Block>, c: F.Cache, first: seq<F.Item>,
                     second: seq<F.Item>, store: Store<V>, blocks: seq<Block>)
    requires F.Valid(c.index) && c.head.Some? && F.Depth(c.index, c.head.value) < |second|
    requires var was := base + Rev(BlocksOf(second)); blocks == was[..|was| - F.Depth(c.index, c.head.value)]
    ensures Ended(rules, fork, base, c, first, second, Stuck, store, blocks)
  {
    hide F.Depth, ApplyAll;
    var depth, was := F.Depth(c.index, c.head.value), Rev(BlocksOf(second));
    assert (base + was)[..|base + was| - depth] == base + was[..|second| - depth];
  }

  // ----- lists of blocks

  lemma Shortened(base: seq<Block>, bs: seq<Block>, applied: nat, left: nat)
    requires left <= applied <= |bs|
    ensures (base + bs[..applied])[..|base| + left] == base + bs[..left]
    ensures (base + bs[..left])[|base|..] == bs[..left]
  {
  }

  lemma NewestIsInvalid(branch: seq<Block>, applied: nat)
    requires applied < |branch|
    ensures branch[0].Id() in InvalidIds(branch, applied)
  {
  }

  lemma CutBack(below: seq<Block>, tail: seq<Block>)
    ensures (below + tail)[..|below + tail| - |tail|] == below
  {
  }
}
