/** The chain, the fork database beside it, and pushing a block through both. */
module ChainDatabase {
  import opened Common
  import opened ObjectStore
  import opened UndoLog
  import opened Blocks
  import opened ForkSwitch
  import opened BranchSwitch
  import F = ForkDatabase

  /** What blocks do, which block a state has as its head, and which block an id stands for. */
  datatype Laws<!V> = Laws(rules: Rules<V>, headOf: Store<V> -> BlockId, named: BlockId -> Block)

  /** The object store with its undo log, the blocks of the chain, the queue of popped transactions and the fork
      database. `states` are what the newest undo entries restore: one state per block, for the newest blocks. */
  datatype State<V> = State(log: Log<V>, copies: Snapshots<V>, states: seq<Store<V>>, blocks: seq<Block>,
                            popped: seq<nat>, forks: F.Cache)

  ghost predicate Consistent<V(!new)>(laws: Laws<V>, s: State<V>) {
    && Sound(laws.rules, laws.headOf) && Holds(s.log, s.copies, s.states) && |s.states| <= |s.blocks|
    && History(laws.rules, s.states, Newest(s.blocks, |s.states|), s.log.store)
    && Linked(s.blocks) && laws.headOf(s.log.store) == HeadId(s.blocks) && Named(laws.named, s.blocks)
    && NamedIndex(laws.named, s.forks.index)
  }

  ghost function Newest<T>(s: seq<T>, n: nat): (r: seq<T>)
    requires n <= |s|
    ensures |r| == n
  {
    s[|s| - n..]
  }

  lemma NewestMore<T>(s: seq<T>, n: nat, x: T)
    requires n <= |s|
    ensures Newest(s + [x], n + 1) == Newest(s, n) + [x]
  {
  }

  lemma NewestInit<T>(s: seq<T>, n: nat)
    requires 0 < n <= |s|
    ensures Newest(Init(s), n - 1) == Init(Newest(s, n)) && Last(Newest(s, n)) == Last(s)
  {
  }

  lemma NewestOfNewest<T>(s: seq<T>, n: nat, k: nat)
    requires k <= n <= |s|
    ensures Newest(s, n)[n - k..] == Newest(s, k)
  {
  }

  /** The state `depth` blocks back. */
  ghost function StateBack<V>(s: State<V>, depth: nat): Store<V>
    requires depth <= |s.states|
  {
    if depth == 0 then s.log.store else s.states[|s.states| - depth]
  }

  // ----- what every step keeps

  lemma {:induction false} GenesisConsistent<V(!new)>(laws: Laws<V>, genesis: Store<V>, maxSize: nat)
    requires Sound(laws.rules, laws.headOf) && WellFormed(genesis) && laws.headOf(genesis) == ZERO_ID
    ensures Consistent(laws, State(Fresh(genesis, maxSize), Snapshots(genesis, [], 0, maxSize), [], [], [],
                                   F.Cache(map[], None, 1024, 0)))
  {
    hide Sound, WellFormed;
    HoldsNothing(genesis, maxSize);
  }

  lemma HoldsNothing<V>(genesis: Store<V>, maxSize: nat)
    requires WellFormed(genesis)
    ensures Holds(Fresh(genesis, maxSize), Snapshots(genesis, [], 0, maxSize), [])
  {
  }

  /** What consistency says about the head, the number of blocks and the undo stack. */
  lemma HeadIsKnown<V(!new)>(laws: Laws<V>, s: State<V>)
    requires Consistent(laws, s)
    ensures laws.headOf(s.log.store) == HeadId(s.blocks) && HeadId(s.blocks).num == |s.blocks|
    ensures Linked(s.blocks) && |s.states| <= |s.blocks| && NamedIndex(laws.named, s.forks.index)
    ensures F.Valid(s.forks.index)
    ensures s.states != [] ==> s.log.stack != []
  {
    hide Sound, History, Named;
    LinkedHeight(s.blocks);
    hide Linked;
  }

  lemma CacheConsistent<V(!new)>(laws: Laws<V>, s: State<V>, forks: F.Cache)
    requires Consistent(laws, s) && NamedIndex(laws.named, forks.index)
    ensures Consistent(laws, s.(forks := forks))
  {
    hide Sound, Holds, History, Linked, Named, NamedIndex;
  }

  /** Enough undo history for one block. */
  ghost predicate RoomFor<V>(laws: Laws<V>, s: State<V>, b: Block) {
    && |s.states| <= s.log.maxSize
    && HasRoom(View(s.log.store, s.states + [s.log.store], 1), s.log.maxSize, laws.rules(s.log.store, b).ops)
  }

  /** A block has been applied, or has been unwound; what it made the fork database forget stays forgotten. */
  ghost predicate BlockApplied<V(!new)>(laws: Laws<V>, s: State<V>, b: Block, t: State<V>, ok: bool) {
    var plan := laws.rules(s.log.store, b);
    && Consistent(laws, t) && ok == plan.ok
    && t.log == SessionLog(s.log, plan) && t.log.maxSize == SizeAfter(s.log.maxSize, plan.ops)
    && t.popped == s.popped && t.forks == CacheAfter(s.forks, plan.ops)
    && t.forks.index.Keys <= s.forks.index.Keys && t.forks.head == s.forks.head
    && if ok then
         && t.log.store == Applied(laws.rules, s.log.store, b) && laws.headOf(s.log.store) == b.previous
         && t.states == s.states + [s.log.store] && t.blocks == s.blocks + [b]
       else
         t.log.store == s.log.store && t.states == s.states && t.blocks == s.blocks
  }

  /** A session for the block, and its end: the chain with the block on top, or the chain as it was. */
  lemma ApplyConsistent<V(!new)>(laws: Laws<V>, s: State<V>, b: Block) returns (t: State<V>)
    requires Consistent(laws, s) && laws.named(b.Id()) == b && RoomFor(laws, s, b)
    ensures BlockApplied(laws, s, b, t, laws.rules(s.log.store, b).ok)
  {
    hide Holds, History, HasRoom, SessionLog, Effect, Bracketed, Linked, HeadId, Named, SizeAfter, Newest, NamedIndex;
    var plan := laws.rules(s.log.store, b);
    assert Bracketed(s.log.store, plan.ops);
    assert plan.ok ==> laws.headOf(s.log.store) == b.previous && laws.headOf(Effect(s.log.store, plan.ops)) == b.Id();
    assert Sound(laws.rules, laws.headOf);
    hide Sound;
    CacheStaysNamed(laws.named, s.forks, plan.ops);
    hide CacheAfter;
    var copies := SessionHolds(s.log, s.copies, s.states, plan);
    t := s.(log := SessionLog(s.log, plan), copies := copies, forks := CacheAfter(s.forks, plan.ops));
    if plan.ok {
      HistoryGrows(laws.rules, s.states, Newest(s.blocks, |s.states|), s.log.store, b);
      NewestMore(s.blocks, |s.states|, b);
      LinkedMore(s.blocks, b);
      NamedMore(laws.named, s.blocks, b);
      t := t.(states := s.states + [s.log.store], blocks := s.blocks + [b]);
    }
  }

  lemma NamedMore(named: BlockId -> Block, blocks: seq<Block>, b: Block)
    requires Named(named, blocks) && named(b.Id()) == b
    ensures Named(named, blocks + [b]) && HeadId(blocks + [b]) == b.Id()
  {
  }

  lemma NamedInit(named: BlockId -> Block, blocks: seq<Block>)
    requires Named(named, blocks) && blocks != []
    ensures Named(named, Init(blocks))
  {
  }

  /** The newest entry leads back to the state before the newest block. */
  lemma PopConsistent<V(!new)>(laws: Laws<V>, s: State<V>) returns (t: State<V>)
    requires Consistent(laws, s) && s.states != []
    ensures t ==
      s.(log := Step(s.log, PopCommit), copies := t.copies, states := Init(s.states), blocks := Init(s.blocks))
    ensures Consistent(laws, t) && t.log.maxSize == s.log.maxSize && t.log.store == Last(s.states)
  {
    hide Holds, History, Linked, Named, HeadId, Step, Newest, NamedIndex;
    var n := |s.states|;
    NewestInit(s.blocks, n);
    HeadsGrow(laws.rules, laws.headOf, s.states, Newest(s.blocks, n), s.log.store, n - 1);
    hide Sound;
    LinkedInit(s.blocks);
    NamedInit(laws.named, s.blocks);
    var copies := PopHolds(s.log, s.copies, s.states);
    HistoryShrinks(laws.rules, s.states, Newest(s.blocks, n), s.log.store);
    t := s.(log := Step(s.log, PopCommit), copies := copies, states := Init(s.states), blocks := Init(s.blocks));
  }

  /** Forgetting how far back the undo entries are known costs nothing. */
  lemma ForgetConsistent<V(!new)>(laws: Laws<V>, s: State<V>, keep: nat)
    requires Consistent(laws, s) && keep <= |s.states|
    ensures Consistent(laws, s.(states := Newest(s.states, keep)))
  {
    hide Holds, History, Linked, Named, Sound, NamedIndex;
    var n := |s.states|;
    HoldsSuffix(s.log, s.copies, s.states, n - keep);
    HistorySuffix(laws.rules, s.states, Newest(s.blocks, n), s.log.store, n - keep);
    NewestOfNewest(s.blocks, n, keep);
  }

  // ----- popping

  /** How often the head of the fork database can be popped, as long as the items in `live` are alive. */
  ghost function HeadDepth(head: Option<F.Item>, live: F.Index): nat {
    if head.Some? && F.Valid(live) then F.Depth(live, head.value) else 0
  }

  ghost function HeadBack(head: Option<F.Item>, live: F.Index, n: nat): Option<F.Item> {
    if head.Some? && F.Valid(live) && 0 < n <= F.Depth(live, head.value) then Some(F.Back(live, head.value, n))
    else head
  }

  /** n blocks have been popped. */
  ghost predicate Popped<V(!new)>(laws: Laws<V>, s: State<V>, live: F.Index, n: nat, t: State<V>) {
    && Consistent(laws, t) && n <= |s.states| <= |s.blocks| && n <= HeadDepth(s.forks.head, live)
    && t.log.store == StateBack(s, n) && t.log.maxSize == s.log.maxSize
    && t.states == s.states[..|s.states| - n] && t.blocks == s.blocks[..|s.blocks| - n]
    && t.popped == Txs(s.blocks[|s.blocks| - n..]) + s.popped
    && t.forks == s.forks.(head := HeadBack(s.forks.head, live, n))
  }

  lemma PoppedZero<V(!new)>(laws: Laws<V>, s: State<V>, live: F.Index)
    requires Consistent(laws, s)
    ensures Popped(laws, s, live, 0, s)
  {
    HeadIsKnown(laws, s);
    hide Consistent, HeadDepth;
    assert s.states[..|s.states|] == s.states && s.blocks[..|s.blocks|] == s.blocks && s.blocks[|s.blocks|..] == [];
    assert Txs([]) + s.popped == s.popped;
  }

  /** One pop: the entry is taken back, the transactions are queued in front, and the head of the fork database
      moves. */
  lemma PoppedOne<V(!new)>(laws: Laws<V>, s: State<V>, live: F.Index, t: State<V>)
    requires Consistent(laws, t) && 0 < |s.states| <= |s.blocks| && HeadDepth(s.forks.head, live) > 0
    requires t.log.store == Last(s.states) && t.log.maxSize == s.log.maxSize && t.states == Init(s.states)
    requires t.blocks == Init(s.blocks)
    requires t.popped == Last(s.blocks).transactions + s.popped
    requires t.forks == s.forks.(head := F.Prev(live, s.forks.head.value))
    ensures Popped(laws, s, live, 1, t)
  {
    hide Consistent, F.Depth;
    TxsFrom(s.blocks, |s.blocks| - 1);
    assert s.blocks[|s.blocks|..] == [] && Last(s.blocks).transactions + [] == Last(s.blocks).transactions;
    F.BackMore(live, s.forks.head.value, 0);
  }

  lemma PoppedMore<V(!new)>(laws: Laws<V>, s: State<V>, live: F.Index, n: nat, t: State<V>, u: State<V>)
    requires Popped(laws, s, live, n, t) && Popped(laws, t, live, 1, u) && F.Valid(live)
    ensures Popped(laws, s, live, n + 1, u)
  {
    hide Consistent, F.Depth, F.Back, Txs;
    var k := |s.blocks| - n;
    TakeAgain(s.states, |s.states| - n);
    TakeAgain(s.blocks, k);
    PoppedTxs(s.blocks, n, s.popped);
    PoppedHead(s.forks.head, live, n);
  }

  lemma TakeAgain<T>(s: seq<T>, k: nat)
    requires 0 < k <= |s|
    ensures s[..k][..k - 1] == s[..k - 1] && s[..k][k - 1] == s[k - 1] && s[..k][k - 1..] == [s[k - 1]]
  {
  }

  lemma PoppedTxs(blocks: seq<Block>, n: nat, popped: seq<nat>)
    requires n < |blocks|
    ensures var k := |blocks| - n;
      Txs([blocks[k - 1]]) + (Txs(blocks[k..]) + popped) == Txs(blocks[k - 1..]) + popped
  {
    var k := |blocks| - n;
    TxsFrom(blocks, k - 1);
    TxsFrom([blocks[k - 1]], 0);
    assert [blocks[k - 1]][0..] == [blocks[k - 1]] && [blocks[k - 1]][1..] == [];
    Associate(blocks[k - 1].transactions, Txs(blocks[k..]), popped);
  }

  lemma Associate(a: seq<nat>, b: seq<nat>, c: seq<nat>)
    ensures (a + b) + c == a + (b + c) && a + [] == a
  {
  }

  lemma HeadBackDepth(head: Option<F.Item>, live: F.Index, n: nat)
    requires n <= HeadDepth(head, live)
    ensures HeadDepth(HeadBack(head, live, n), live) == HeadDepth(head, live) - n
  {
    hide F.Depth;
  }

  lemma PoppedHead(head: Option<F.Item>, live: F.Index, n: nat)
    requires F.Valid(live) && n <= HeadDepth(head, live) && HeadDepth(HeadBack(head, live, n), live) > 0
    ensures n < HeadDepth(head, live) && HeadBack(HeadBack(head, live, n), live, 1) == HeadBack(head, live, n + 1)
  {
    hide F.Depth;
    F.BackMore(live, head.value, n);
    F.BackMore(live, HeadBack(head, live, n).value, 0);
  }

  /** Heights grow along the chain, so the head is the fork point only once nothing is left to pop. */
  lemma PoppedToTarget<V(!new)>(laws: Laws<V>, s: State<V>, live: F.Index, n: nat, t: State<V>, depth: nat)
    requires Popped(laws, s, live, n, t) && n <= depth <= |s.states|
    requires laws.headOf(StateBack(s, depth)) == laws.headOf(t.log.store)
    ensures n == depth
  {
    hide Holds, Sound, History, Linked, Named, Newest, NamedIndex, Txs, HeadDepth, HeadBack;
    if n < depth {
      assert t.states[|t.states| - (depth - n)] == s.states[|s.states| - depth];
      HeadsGrow(laws.rules, laws.headOf, t.states, Newest(t.blocks, |t.states|), t.log.store, |t.states| - (depth - n));
    }
  }

  ghost predicate CanPop<V>(s: State<V>, live: F.Index) { s.blocks != [] && HeadDepth(s.forks.head, live) > 0 }

  lemma CanPopWhenLinked<V>(s: State<V>, live: F.Index)
    requires F.Valid(live)
    ensures CanPop(s, live) <==> s.blocks != [] && s.forks.head.Some? && F.Prev(live, s.forks.head.value).Some?
  {
  }

  /** How one pop ends. Without an undo entry it throws half-way: the head of the fork database has moved by then. */
  ghost predicate PopEnds<V(!new)>(laws: Laws<V>, s: State<V>, live: F.Index, t: State<V>, ok: bool) {
    && Consistent(laws, t) && F.Valid(live) && ok == (CanPop(s, live) && s.log.stack != [])
    && if ok then Popped(laws, s, live, 1, t)
       else if CanPop(s, live) then t == s.(forks := s.forks.(head := F.Prev(live, s.forks.head.value)))
       else t == s
  }

  /** How popping to a block `depth` below the head ends: there, or where the fork database has nothing left to pop. */
  ghost predicate PopToEnds<V(!new)>(laws: Laws<V>, s: State<V>, depth: nat, live: F.Index, t: State<V>, ok: bool) {
    && F.Valid(live) && ok == (depth <= HeadDepth(s.forks.head, live))
    && Popped(laws, s, live, if ok then depth else HeadDepth(s.forks.head, live), t)
  }

  lemma CanPopMeans<V>(s: State<V>, live: F.Index)
    requires CanPop(s, live)
    ensures s.blocks != [] && HeadDepth(s.forks.head, live) > 0
  {
  }

  /** Before the target is reached there is an undo entry to pop. */
  lemma PopsOn<V(!new)>(laws: Laws<V>, s: State<V>, live: F.Index, n: nat, t: State<V>, depth: nat)
    requires Popped(laws, s, live, n, t) && n <= depth <= |s.states|
    requires laws.headOf(StateBack(s, depth)) != laws.headOf(t.log.store)
    ensures Consistent(laws, t) && n < depth && t.states != [] && t.log.stack != [] && t.forks.index == s.forks.index
  {
    HeadIsKnown(laws, t);
    hide Consistent, HeadDepth, HeadBack, Txs;
  }

  lemma PopsOneMore<V(!new)>(laws: Laws<V>, s: State<V>, live: F.Index, n: nat, t: State<V>, u: State<V>, ok: bool)
    requires F.Valid(live) && Popped(laws, s, live, n, t) && PopEnds(laws, t, live, u, ok)
    requires t.log.stack != [] && t.states != []
    ensures if ok then Popped(laws, s, live, n + 1, u) else u == t && n == HeadDepth(s.forks.head, live)
  {
    HeadIsKnown(laws, t);
    HeadBackDepth(s.forks.head, live, n);
    hide Consistent, Txs, HeadDepth, HeadBack;
    if ok {
      PoppedMore(laws, s, live, n, t, u);
    }
  }

  lemma PopsEnd<V(!new)>(laws: Laws<V>, s: State<V>, live: F.Index, n: nat, t: State<V>)
    requires Popped(laws, s, live, n, t)
    ensures n <= HeadDepth(s.forks.head, live)
  {
    hide Consistent, HeadDepth;
  }

  // ----- switching

  /** The old branch is what the undo entries cover: it replays from the fork state to the present one. */
  lemma OldBranch<V(!new)>(laws: Laws<V>, s: State<V>, second: seq<F.Item>)
    requires Consistent(laws, s) && F.Chain(s.forks.index, HeadId(s.blocks), second) && |second| <= |s.states|
    ensures second != [] && |second| <= |s.blocks| && Newest(s.blocks, |second|) == Rev(BlocksOf(second))
    ensures Named(laws.named, BlocksOf(second))
    ensures ApplyAll(laws.rules, StateBack(s, |second|), Rev(BlocksOf(second))) == Some(s.log.store)
    ensures laws.headOf(StateBack(s, |second|)) == second[|second| - 1].block.previous
  {
    hide Holds, Sound, History, ApplyAll, Linked, Named, NamedIndex, Rev, Newest;
    AncestryIsChain(laws.named, s.forks.index, s.blocks, second);
    ChainNamed(laws.named, s.forks.index, HeadId(s.blocks), second);
    OldestIsFirst(second);
    hide F.Chain, BlocksOf, HeadId;
    var n, from := |s.states|, |s.states| - |second|;
    var covered := Newest(s.blocks, n);
    NewestIs(s.blocks, |second|);
    NewestOfNewest(s.blocks, n, |second|);
    Replays(laws, s, |second|);
    HeadsGrow(laws.rules, laws.headOf, s.states, covered, s.log.store, from);
    assert covered[from] == covered[from..][0];
  }

  lemma NewestIs<T>(s: seq<T>, n: nat)
    requires n <= |s|
    ensures Newest(s, n) == s[|s| - n..] && s == s[..|s| - n] + Newest(s, n)
  {
  }

  /** What a switch can rely on when it begins. */
  lemma SwitchStarts<V(!new)>(laws: Laws<V>, s: State<V>, first: seq<F.Item>, second: seq<F.Item>)
    requires Consistent(laws, s) && Forked(s.forks, s.blocks, first, second) && |second| <= |s.states|
    ensures F.Valid(s.forks.index) && first != [] && second != [] && |second| <= |s.blocks|
    ensures s.forks.index + F.Held(s.forks.index, first + second) == s.forks.index
    ensures NamedIndex(laws.named, F.Held(s.forks.index, first + second))
    ensures s.blocks == s.blocks[..|s.blocks| - |second|] + Rev(BlocksOf(second))
    ensures Named(laws.named, BlocksOf(first)) && Named(laws.named, BlocksOf(second))
    ensures ApplyAll(laws.rules, StateBack(s, |second|), Rev(BlocksOf(second))) == Some(s.log.store)
    ensures laws.headOf(StateBack(s, |second|)) == second[|second| - 1].block.previous
  {
    HeadIsKnown(laws, s);
    assert F.Chain(s.forks.index, HeadId(s.blocks), second) && first != [];
    ChainNamed(laws.named, s.forks.index, s.forks.head.value.block.Id(), first);
    hide Consistent, NamedIndex, Named, ApplyAll, Rev, BlocksOf, F.Held, F.Valid, F.Chain, F.Branches, Newest;
    F.HeldIsCached(s.forks.index, first + second);
    HeldIsNamed(laws.named, s.forks.index, first + second);
    OldBranch(laws, s, second);
    NewestIs(s.blocks, |second|);
  }

  /** How applying a branch that lies newest first ends; `failed` blocks of it have not been applied. */
  ghost predicate BranchApplied<V(!new)>(laws: Laws<V>, s: State<V>, branch: seq<Block>, t: State<V>, failed: nat) {
    var bs := Rev(branch);
    && Consistent(laws, t) && failed <= |branch| && |branch| - failed == Applicable(laws.rules, s.log.store, bs)
    && ApplyAll(laws.rules, s.log.store, bs) == (if failed == 0 then Some(t.log.store) else None)
    && t.log.maxSize == SizeAlong(laws.rules, s.log.store, s.log.maxSize, bs)
    && t.popped == s.popped && t.forks == CacheAlong(laws.rules, s.log.store, s.forks, bs)
    && t.forks.index.Keys <= s.forks.index.Keys && t.forks.head == s.forks.head
    && |t.states| == |s.states| + |branch| - failed && t.states[..|s.states|] == s.states
    && StateBack(t, |branch| - failed) == s.log.store
    && t.blocks == s.blocks + bs[..|branch| - failed]
  }

  /** On the way: j blocks have been applied, and the rest is to be applied from here. */
  ghost predicate OnBranch<V(!new)>(laws: Laws<V>, s: State<V>, bs: seq<Block>, j: nat, t: State<V>) {
    && Consistent(laws, t) && j <= |bs| && Ample(laws.rules, t.log.store, t.states, t.log.maxSize, bs[j..])
    && ApplyAll(laws.rules, s.log.store, bs) == ApplyAll(laws.rules, t.log.store, bs[j..])
    && Applicable(laws.rules, s.log.store, bs) == j + Applicable(laws.rules, t.log.store, bs[j..])
    && SizeAlong(laws.rules, s.log.store, s.log.maxSize, bs) ==
        SizeAlong(laws.rules, t.log.store, t.log.maxSize, bs[j..])
    && t.popped == s.popped
    && CacheAlong(laws.rules, s.log.store, s.forks, bs) == CacheAlong(laws.rules, t.log.store, t.forks, bs[j..])
    && t.forks.index.Keys <= s.forks.index.Keys && t.forks.head == s.forks.head
    && |t.states| == |s.states| + j && t.states[..|s.states|] == s.states && StateBack(t, j) == s.log.store
    && t.blocks == s.blocks + bs[..j]
  }

  lemma BranchStarts<V(!new)>(laws: Laws<V>, s: State<V>, bs: seq<Block>)
    requires Consistent(laws, s) && Ample(laws.rules, s.log.store, s.states, s.log.maxSize, bs)
    ensures OnBranch(laws, s, bs, 0, s)
  {
    hide Consistent, Ample, ApplyAll, Applicable, SizeAlong, CacheAlong;
    assert bs[0..] == bs && bs[..0] == [] && s.blocks + [] == s.blocks && s.states[..|s.states|] == s.states;
  }

  lemma BranchHasRoom<V(!new)>(laws: Laws<V>, s: State<V>, bs: seq<Block>, j: nat, t: State<V>)
    requires OnBranch(laws, s, bs, j, t) && j < |bs|
    ensures Consistent(laws, t) && RoomFor(laws, t, bs[j])
  {
    hide Consistent, ApplyAll, Applicable, SizeAlong, CacheAlong, HasRoom;
    assert bs[j..][0] == bs[j];
  }

  lemma {:induction false} BranchGoesOn<V(!new)>(laws: Laws<V>, s: State<V>, bs: seq<Block>, j: nat, t: State<V>,
                                                 u: State<V>)
    requires OnBranch(laws, s, bs, j, t) && j < |bs| && BlockApplied(laws, t, bs[j], u, true)
    ensures OnBranch(laws, s, bs, j + 1, u)
  {
    hide Consistent, HasRoom, CacheAfter, SizeAfter, Applied, SessionLog;
    assert bs[j..][0] == bs[j] && bs[j..][1..] == bs[j + 1..] && bs[..j + 1] == bs[..j] + [bs[j]];
    assert u.states[|u.states| - (j + 1)] == s.log.store;
    assert u.states[..|s.states|] == s.states;
  }

  lemma {:induction false} BranchStops<V(!new)>(laws: Laws<V>, s: State<V>, branch: seq<Block>, j: nat, t: State<V>,
                                                u: State<V>)
    requires var bs := Rev(branch); OnBranch(laws, s, bs, j, t) && j < |bs| && BlockApplied(laws, t, bs[j], u, false)
    ensures BranchApplied(laws, s, branch, u, |branch| - j)
  {
    var bs := Rev(branch);
    hide Consistent, HasRoom, CacheAfter, SizeAfter, Applied, SessionLog, Rev, Ample;
    assert bs[j..][0] == bs[j];
  }

  lemma BranchIsDone<V(!new)>(laws: Laws<V>, s: State<V>, branch: seq<Block>, t: State<V>)
    requires OnBranch(laws, s, Rev(branch), |branch|, t)
    ensures BranchApplied(laws, s, branch, t, 0)
  {
    var bs := Rev(branch);
    hide Consistent, Rev, Ample;
    assert bs[|bs|..] == [];
  }

  lemma NextInBranch(named: BlockId -> Block, branch: seq<Block>, j: nat)
    requires j < |branch| && Named(named, branch)
    ensures Rev(branch)[j] == branch[|branch| - 1 - j] && named(Rev(branch)[j].Id()) == Rev(branch)[j]
  {
  }

  lemma AppliedMeans<V(!new)>(laws: Laws<V>, s: State<V>, b: Block, t: State<V>, ok: bool)
    requires BlockApplied(laws, s, b, t, ok)
    ensures Consistent(laws, t)
  {
  }

  /** What going back relies on: the old branch can be applied again at the fork point, and there is room for it. */
  ghost predicate MayGoBack<V>(laws: Laws<V>, s: State<V>, f: seq<Block>, applied: nat, second: seq<F.Item>,
                               base: seq<Block>)
    requires second != []
  {
    && applied <= |s.states| && applied <= |f| && s.blocks == base + Rev(f)[..applied]
    && Named(laws.named, BlocksOf(second))
    && var fork := StateBack(s, applied);
    && laws.headOf(fork) == second[|second| - 1].block.previous
    && ApplyAll(laws.rules, fork, Rev(BlocksOf(second))).Some?
    && Ample(laws.rules, fork, s.states[..|s.states| - applied], s.log.maxSize, Rev(BlocksOf(second)))
  }

  lemma GoingBack<V(!new)>(laws: Laws<V>, s: State<V>, f: seq<Block>, applied: nat, second: seq<F.Item>,
                           base: seq<Block>)
    requires second != [] && MayGoBack(laws, s, f, applied, second, base)
    ensures applied <= |s.states| && applied <= |f| && Named(laws.named, BlocksOf(second))
    ensures laws.headOf(StateBack(s, applied)) == second[|second| - 1].block.previous
    ensures ApplyAll(laws.rules, StateBack(s, applied), Rev(BlocksOf(second))).Some?
  {
  }

  /** The fork database when the new branch has been taken off again: without the blocks that are invalid, and with a
      head as far below the old one as blocks were taken off. */
  ghost function BackForks(c: F.Cache, f: seq<Block>, applied: nat, oldHead: F.Item, held: F.Index): F.Cache {
    var left := c.index - InvalidIds(f, applied);
    c.(index := left, head := HeadBack(Some(oldHead), left + held, applied))
  }

  /** How going back ends: with the old branch in place again, or where the old head lacked ancestors. `s` is the
      state in which a block of the new branch has failed. */
  ghost predicate WentBack<V(!new)>(laws: Laws<V>, s: State<V>, f: seq<Block>, applied: nat, second: seq<F.Item>,
                                    held: F.Index, fork: Store<V>, base: seq<Block>, t: State<V>, ok: bool)
    requires second != []
  {
    var live, bs := s.forks.index - InvalidIds(f, applied) + held, Rev(BlocksOf(second));
    && Consistent(laws, t) && F.Valid(live) && ok == (applied <= F.Depth(live, second[0])) && applied <= |f|
    && t.forks.index.Keys <= s.forks.index.Keys - InvalidIds(f, applied)
    && t.forks.head.Some? && t.forks.head.value.block.Num() <= second[0].block.Num()
    && if ok then
         && ApplyAll(laws.rules, fork, bs) == Some(t.log.store) && t.blocks == base + bs
         && |t.states| == |s.states| - applied + |second|
         && t.popped == Txs(Rev(f)[..applied]) + s.popped
         && t.forks == CacheAlong(laws.rules, fork, BackForks(s.forks, f, applied, second[0], held), bs)
       else
         var left := applied - F.Depth(live, second[0]);
         t.blocks == base + Rev(f)[..left] && ApplyAll(laws.rules, fork, Rev(f)[..left]) == Some(t.log.store)
  }

  /** The newest blocks replay from the state before them. */
  lemma Replays<V(!new)>(laws: Laws<V>, s: State<V>, n: nat)
    requires Consistent(laws, s) && n <= |s.states|
    ensures n <= |s.blocks| && ApplyAll(laws.rules, StateBack(s, n), Newest(s.blocks, n)) == Some(s.log.store)
  {
    hide Holds, Sound, History, ApplyAll, Linked, Named, NamedIndex, Newest, HeadId;
    var k := |s.states|;
    NewestOfNewest(s.blocks, k, n);
    HistoryReplays(laws.rules, s.states, Newest(s.blocks, k), s.log.store, k - n);
  }

  /** What is left of the new branch when popping it stops early. */
  lemma {:induction false} StopsHalfway<V(!new)>(laws: Laws<V>, s: State<V>, live: F.Index, n: nat, t: State<V>,
                                                 applied: nat, base: seq<Block>, bs: seq<Block>)
    requires Popped(laws, s, live, n, t) && n < applied <= |s.states| && applied <= |bs|
    requires s.blocks == base + bs[..applied]
    ensures var left := applied - n;
      t.blocks == base + bs[..left] && ApplyAll(laws.rules, StateBack(s, applied), bs[..left]) == Some(t.log.store)
  {
    var left := applied - n;
    hide Consistent, ApplyAll, Txs, HeadDepth, HeadBack, Newest;
    Shortened(base, bs, applied, left);
    assert t.states[|t.states| - left] == s.states[|s.states| - applied];
    Replays(laws, t, left);
    NewestIs(t.blocks, left);
  }

  /** The state in which going back begins to pop. */
  ghost function SetBack<V>(s: State<V>, f: seq<Block>, applied: nat, oldHead: F.Item): State<V> {
    s.(forks := s.forks.(index := s.forks.index - InvalidIds(f, applied), head := Some(oldHead)))
  }

  lemma {:induction false} BackHalfway<V(!new)>(
      laws: Laws<V>, s: State<V>, f: seq<Block>, applied: nat, second: seq<F.Item>, held: F.Index, base: seq<Block>,
      t: State<V>, u: State<V>)
    requires second != [] && MayGoBack(laws, s, f, applied, second, base) && t == SetBack(s, f, applied, second[0])
    requires PopToEnds(laws, t, applied, t.forks.index + held, u, false)
    ensures WentBack(laws, s, f, applied, second, held, StateBack(s, applied), base, u, false)
  {
    hide Consistent, InvalidIds, F.Depth, F.Valid, F.Back, ApplyAll, Ample, Rev, BlocksOf, Named, Txs;
    var live := t.forks.index + held;
    StopsHalfway(laws, t, live, F.Depth(live, second[0]), u, applied, base, Rev(f));
    HeadBackLower(t.forks.head, live, F.Depth(live, second[0]));
  }

  lemma HeadBackLower(head: Option<F.Item>, live: F.Index, n: nat)
    requires head.Some?
    ensures HeadBack(head, live, n).Some? && HeadBack(head, live, n).value.block.Num() <= head.value.block.Num()
  {
  }

  lemma {:induction false} BackAtFork<V(!new)>(
      laws: Laws<V>, s: State<V>, f: seq<Block>, applied: nat, second: seq<F.Item>, held: F.Index, base: seq<Block>,
      t: State<V>, u: State<V>)
    requires second != [] && MayGoBack(laws, s, f, applied, second, base) && t == SetBack(s, f, applied, second[0])
    requires PopToEnds(laws, t, applied, t.forks.index + held, u, true)
    ensures Consistent(laws, u) && Ample(laws.rules, u.log.store, u.states, u.log.maxSize, Rev(BlocksOf(second)))
    ensures u.log.store == StateBack(s, applied) && u.blocks == base && |u.states| == |s.states| - applied
    ensures u.forks == BackForks(s.forks, f, applied, second[0], held) && u.forks.head.Some?
    ensures u.forks.index == s.forks.index - InvalidIds(f, applied)
    ensures u.popped == Txs(Rev(f)[..applied]) + s.popped
    ensures u.forks.head.value.block.Num() <= second[0].block.Num()
  {
    hide Consistent, InvalidIds, HeadDepth, HeadBack, ApplyAll, Ample, Rev, BlocksOf, Named, Txs, F.Valid;
    HeadBackLower(t.forks.head, t.forks.index + held, applied);
    CutBack(base, Rev(f)[..applied]);
    assert s.blocks[|s.blocks| - applied..] == Rev(f)[..applied];
  }

  lemma {:induction false} BackAgain<V(!new)>(
      laws: Laws<V>, s: State<V>, f: seq<Block>, applied: nat, second: seq<F.Item>, held: F.Index, base: seq<Block>,
      t: State<V>, u: State<V>, v: State<V>, failed: nat)
    requires second != [] && MayGoBack(laws, s, f, applied, second, base) && t == SetBack(s, f, applied, second[0])
    requires PopToEnds(laws, t, applied, t.forks.index + held, u, true)
    requires BranchApplied(laws, u, BlocksOf(second), v, failed)
    ensures WentBack(laws, s, f, applied, second, held, StateBack(s, applied), base, v, true)
  {
    hide Consistent, InvalidIds, F.Depth, F.Valid, HeadBack, Popped, ApplyAll, Applicable, SizeAlong, CacheAlong,
         Ample, Named;
    hide Rev, BlocksOf, MayGoBack, BackForks, Txs;
    BackAtFork(laws, s, f, applied, second, held, base, t, u);
    GoingBack(laws, s, f, applied, second, base);
    var bs := Rev(BlocksOf(second));
    assert failed == 0;
    assert bs[..|second|] == bs;
  }

  /** What the attempt at the fork point relies on. */
  ghost predicate MayTry<V>(laws: Laws<V>, s: State<V>, first: seq<F.Item>, second: seq<F.Item>)
    requires second != []
  {
    && Named(laws.named, BlocksOf(first)) && Named(laws.named, BlocksOf(second))
    && laws.headOf(s.log.store) == second[|second| - 1].block.previous
    && ApplyAll(laws.rules, s.log.store, Rev(BlocksOf(second))).Some?
    && AmpleBoth(laws.rules, s.log.store, s.states, s.log.maxSize, BlocksOf(first), BlocksOf(second))
  }

  lemma Trying<V>(laws: Laws<V>, s: State<V>, first: seq<F.Item>, second: seq<F.Item>)
    requires second != [] && MayTry(laws, s, first, second)
    ensures Named(laws.named, BlocksOf(first))
    ensures Ample(laws.rules, s.log.store, s.states, s.log.maxSize, Rev(BlocksOf(first)))
  {
  }

  lemma {:induction false} TriedAndFailed<V(!new)>(laws: Laws<V>, s: State<V>, first: seq<F.Item>, second: seq<F.Item>,
                                                   t: State<V>, failed: nat)
    requires second != [] && MayTry(laws, s, first, second) && BranchApplied(laws, s, BlocksOf(first), t, failed)
    ensures Consistent(laws, t) && failed <= |first| && |first| - failed <= |t.states|
    ensures StateBack(t, |first| - failed) == s.log.store
    ensures MayGoBack(laws, t, BlocksOf(first), |first| - failed, second, s.blocks)
  {
    hide Consistent, ApplyAll, Applicable, SizeAlong, CacheAlong, Ample, Rev, BlocksOf, Named;
    assert t.states[..|t.states| - (|first| - failed)] == s.states;
  }

  /** The fork database after an attempt at the fork point that was rolled back. */
  ghost function ForksBack<V>(laws: Laws<V>, fork: Store<V>, c: F.Cache, first: seq<F.Item>, second: seq<F.Item>,
                              held: F.Index): F.Cache
    requires second != []
  {
    var f, g := Rev(BlocksOf(first)), Rev(BlocksOf(second));
    var tried := CacheAlong(laws.rules, fork, c, f);
    CacheAlong(laws.rules, fork,
               BackForks(tried, BlocksOf(first), Applicable(laws.rules, fork, f), second[0], held), g)
  }

  /** What a rolled back attempt leaves beside the chain: the transactions of both branches are queued. */
  ghost predicate BroughtBack<V>(laws: Laws<V>, fork: Store<V>, c: F.Cache, first: seq<F.Item>, second: seq<F.Item>,
                                 held: F.Index, popped: seq<nat>, t: State<V>)
    requires second != []
  {
    var f := Rev(BlocksOf(first));
    && t.popped == Txs(f[..Applicable(laws.rules, fork, f)]) + popped
    && t.forks == ForksBack(laws, fork, c, first, second, held)
  }

  /** How the attempt at the fork point ends. */
  ghost predicate Tried<V(!new)>(laws: Laws<V>, s: State<V>, first: seq<F.Item>, second: seq<F.Item>, held: F.Index,
                                 how: Switching, t: State<V>)
    requires second != [] && first != []
  {
    var f, g := Rev(BlocksOf(first)), Rev(BlocksOf(second));
    var live := LiveAt(laws.rules, s.log.store, s.forks, first, held);
    && Consistent(laws, t) && (how.Switched? <==> ApplyAll(laws.rules, s.log.store, f).Some?)
    && (how.Switched? ==>
          && ApplyAll(laws.rules, s.log.store, f) == Some(t.log.store) && t.blocks == s.blocks + f
          && |t.states| == |s.states| + |first| && t.popped == s.popped && t.forks.head == s.forks.head
          && t.forks == CacheAlong(laws.rules, s.log.store, s.forks, f))
    && (how.RolledBack? ==>
          && ApplyAll(laws.rules, s.log.store, g) == Some(t.log.store) && t.blocks == s.blocks + g
          && |t.states| == |s.states| + |second| && first[0].block.Id() !in t.forks.index
          && BroughtBack(laws, s.log.store, s.forks, first, second, held, s.popped, t))
    && (!how.Switched? ==>
          && t.forks.head.Some? && t.forks.head.value.block.Num() <= second[0].block.Num()
          && (how.RolledBack? <==> Rollable(laws.rules, s.log.store, live, first, second[0]))
          && (how.Stuck? ==>
              StoppedAt(laws.rules, s.log.store, s.blocks, first, live, second[0], t.blocks, t.log.store)))
    && t.forks.index.Keys <= s.forks.index.Keys
  }

  lemma {:induction false} TriedForward<V(!new)>(laws: Laws<V>, s: State<V>, first: seq<F.Item>, second: seq<F.Item>,
                                                 held: F.Index, t: State<V>)
    requires first != [] && second != [] && BranchApplied(laws, s, BlocksOf(first), t, 0)
    ensures Tried(laws, s, first, second, held, Switched, t)
  {
    hide Consistent, ApplyAll, Applicable, SizeAlong, CacheAlong, LiveAt;
    var f := Rev(BlocksOf(first));
    assert f[..|first|] == f;
  }

  lemma {:induction false} TriedBack<V(!new)>(laws: Laws<V>, s: State<V>, first: seq<F.Item>, second: seq<F.Item>,
                                              held: F.Index, t: State<V>, failed: nat, u: State<V>, ok: bool)
    requires first != [] && second != [] && failed > 0 && BranchApplied(laws, s, BlocksOf(first), t, failed)
    requires WentBack(laws, t, BlocksOf(first), |first| - failed, second, held, s.log.store, s.blocks, u, ok)
    ensures Tried(laws, s, first, second, held, if ok then RolledBack else Stuck, u)
  {
    hide Consistent, ApplyAll, Applicable, SizeAlong, CacheAlong, InvalidIds, F.Depth, F.Valid, Rev, BlocksOf;
    hide BackForks, Txs;
    NewestItemIsInvalid(first, |first| - failed);
  }

  lemma NewestItemIsInvalid(first: seq<F.Item>, applied: nat)
    requires applied < |first|
    ensures first[0].block.Id() in InvalidIds(BlocksOf(first), applied)
  {
    NewestIsInvalid(BlocksOf(first), applied);
  }

  /** How a change of branches ends, with what it leaves of undo history and fork database. */
  ghost predicate Changed<V(!new)>(laws: Laws<V>, s: State<V>, first: seq<F.Item>, second: seq<F.Item>, keep: nat,
                                   how: Switching, t: State<V>)
  {
    var c, d := s.forks, t.forks;
    && Consistent(laws, t) && first != [] && 0 < |second| <= |s.states| && |second| <= |s.blocks|
    && F.Valid(c.index) && c.head.Some?
    && var f, fork := Rev(BlocksOf(first)), StateBack(s, |second|);
    var atFork := c.(head := HeadBack(c.head, c.index, |second|));
    && Ended(laws.rules, fork, s.blocks[..|s.blocks| - |second|], c, first, second, how, t.log.store, t.blocks)
    && d.index.Keys <= c.index.Keys && (!how.Stuck? ==> d.head.Some?)
    && (how.Switched? ==>
          && |t.states| == keep + |first| && |t.blocks| == |s.blocks| - |second| + |first|
          && t.popped == Txs(Rev(BlocksOf(second))) + s.popped
          && d.head.value.block.Num() == c.head.value.block.Num() - |second|
          && d == CacheAlong(laws.rules, fork, atFork, f))
    && (how.RolledBack? ==>
          && t.log.store == s.log.store && t.blocks == s.blocks && |t.states| == keep + |second|
          && BroughtBack(laws, fork, atFork, first, second, F.Held(c.index, first + second),
                         Txs(Rev(BlocksOf(second))) + s.popped, t)
          && first[0].block.Id() !in d.index && d.head.value.block.Num() <= second[0].block.Num())
  }

  /** The attempt at the fork point, seen from before the old branch was left. */
  lemma {:induction false} TriedIsChanged<V(!new)>(
      laws: Laws<V>, s: State<V>, first: seq<F.Item>, second: seq<F.Item>, keep: nat, at: State<V>, how: Switching,
      t: State<V>)
    requires first != [] && 0 < |second| <= |s.blocks| && keep <= |at.states| && F.Valid(s.forks.index)
    requires s.forks.head.Some?
    requires Popped(laws, s, s.forks.index, |second|, at)
    requires s.blocks == s.blocks[..|s.blocks| - |second|] + Rev(BlocksOf(second))
    requires ApplyAll(laws.rules, StateBack(s, |second|), Rev(BlocksOf(second))) == Some(s.log.store)
    requires Tried(laws, at.(states := Newest(at.states, keep)), first, second, F.Held(s.forks.index, first + second),
      how, t)
    ensures Changed(laws, s, first, second, keep, how, t)
  {
    hide Consistent, ApplyAll, F.Depth, LiveAt, StoppedAt, Rollable, F.Held, Newest, Txs, F.Valid, BlocksOf;
    assert |Rev(BlocksOf(first))| == |first|;
    assert s.blocks[|s.blocks| - |second|..] == Rev(BlocksOf(second));
  }

  /** The old branch could not be left. */
  lemma {:induction false} StuckIsChanged<V(!new)>(laws: Laws<V>, s: State<V>, first: seq<F.Item>,
                                                   second: seq<F.Item>, keep: nat, t: State<V>)
    requires first != [] && 0 < |second| <= |s.states| && |second| <= |s.blocks| && F.Valid(s.forks.index)
    requires s.forks.head.Some?
    requires s.blocks == s.blocks[..|s.blocks| - |second|] + Rev(BlocksOf(second))
    requires F.Depth(s.forks.index, s.forks.head.value) < |second|
    requires Popped(laws, s, s.forks.index, F.Depth(s.forks.index, s.forks.head.value), t)
    ensures Changed(laws, s, first, second, keep, Stuck, t)
  {
    hide Consistent, F.Depth, Txs;
    var base := s.blocks[..|s.blocks| - |second|];
    EndsEarly(laws.rules, StateBack(s, |second|), base, s.forks, first, second, t.log.store, t.blocks);
    hide Ended;
  }

  lemma RoomyMeans<V>(laws: Laws<V>, s: State<V>, first: seq<F.Item>, second: seq<F.Item>, keep: nat)
    requires Roomy(laws, s, first, second, keep)
    ensures |second| + keep <= |s.states|
  {
  }

  lemma {:induction false} CannotLeave<V(!new)>(laws: Laws<V>, s: State<V>, first: seq<F.Item>, second: seq<F.Item>,
                                                keep: nat, t: State<V>)
    requires Consistent(laws, s) && Forked(s.forks, s.blocks, first, second) && |second| <= |s.states|
    requires var held := F.Held(s.forks.index, first + second);
      PopToEnds(laws, s, |second|, s.forks.index + held, t, false)
    ensures Changed(laws, s, first, second, keep, Stuck, t)
  {
    hide Consistent, F.Held, Popped, Changed, F.Depth, F.Valid, ApplyAll, Rev, BlocksOf, Named, NamedIndex;
    SwitchStarts(laws, s, first, second);
    StuckIsChanged(laws, s, first, second, keep, t);
  }

  lemma {:induction false} HasLeft<V(!new)>(laws: Laws<V>, s: State<V>, first: seq<F.Item>, second: seq<F.Item>,
                                            keep: nat, t: State<V>)
    requires Consistent(laws, s) && Forked(s.forks, s.blocks, first, second) && Roomy(laws, s, first, second, keep)
    requires var held := F.Held(s.forks.index, first + second);
      PopToEnds(laws, s, |second|, s.forks.index + held, t, true)
    ensures Popped(laws, s, s.forks.index, |second|, t) && keep <= |t.states| && second != []
    ensures var at := t.(states := Newest(t.states, keep));
      Consistent(laws, at) && MayTry(laws, at, first, second)
  {
    hide Consistent, F.Held, F.Valid, ApplyAll, AmpleBoth, Rev, BlocksOf, Named, NamedIndex, Forked, Newest, Txs,
         HeadDepth;
    hide HeadBack;
    SwitchStarts(laws, s, first, second);
    ForgetConsistent(laws, t, keep);
  }

  lemma ChangedFacts<V(!new)>(laws: Laws<V>, s: State<V>, first: seq<F.Item>, second: seq<F.Item>, keep: nat,
                              how: Switching, t: State<V>)
    requires Changed(laws, s, first, second, keep, how, t)
    ensures Consistent(laws, t) && |second| <= |s.states|
    ensures how.RolledBack? ==> t.log.store == s.log.store && t.blocks == s.blocks
  {
  }

  /** A change of branches that a push in a steady state leads to. */
  lemma {:induction false} ChangedSteadily<V(!new)>(
      laws: Laws<V>, s: State<V>, b: Block, first: seq<F.Item>, second: seq<F.Item>, keep: nat, how: Switching,
      t: State<V>)
    requires Consistent(laws, s) && laws.named(b.Id()) == b && F.Links(s.forks, b) && SteadyAt(s.forks, s.blocks)
    requires Higher(F.Pushed(s.forks, b), s.blocks) && Forked(F.Pushed(s.forks, b), s.blocks, first, second)
    requires Changed(laws, s.(forks := F.Pushed(s.forks, b)), first, second, keep, how, t) && |second| <= |s.states|
    ensures |first| == |second| + 1 && (!how.Stuck? ==> SteadyAt(t.forks, t.blocks))
    ensures how.Stuck? <==> OnlyNewestFails(laws.rules, StateBack(s, |second|), F.Pushed(s.forks, b), first, second)
    ensures how.Stuck? ==> t.log.store != s.log.store
  {
    hide Consistent, Ended, F.Pushed, F.Links, SteadyAt, Linked, Higher, Forked, HeadId, OnlyNewestFails, NamedIndex,
         Txs;
    hide F.Valid;
    HeadIsKnown(laws, s);
    HeadIsKnown(laws, t);
    PushedNamed(laws.named, s.forks, b);
    var fork := StateBack(s, |second|);
    SteadyEnd(laws.rules, fork, laws.named, s.forks, b, s.blocks, first, second, how, t.log.store, t.blocks);
    if !how.Stuck? {
      SteadyChanged(s.forks, b, s.blocks, first, second, how, t.forks, t.blocks);
    }
  }

  /** The undo history a switch needs: the `keep` entries below the fork survive both branches. */
  ghost predicate Roomy<V>(laws: Laws<V>, s: State<V>, first: seq<F.Item>, second: seq<F.Item>, keep: nat) {
    && |second| + keep <= |s.states|
    && AmpleBoth(laws.rules, StateBack(s, |second|), Newest(s.states[..|s.states| - |second|], keep), s.log.maxSize,
                 BlocksOf(first), BlocksOf(second))
  }

  /** The undo history a push needs. */
  ghost predicate EnoughHistory<V>(laws: Laws<V>, s: State<V>, b: Block, keep: nat) {
    var c := F.Pushed(s.forks, b);
    && (c.head.value.block.previous == HeadId(s.blocks) ==> RoomFor(laws, s, b))
    && (Higher(c, s.blocks) ==>
          forall first, second :: Forked(c, s.blocks, first, second) ==> Roomy(laws, s, first, second, keep))
  }

  /** How a push ends: `Refused` by the fork database; `Unlinked`, when a higher branch does not lead back to the chain;
      `Cached` only; on top of the chain, or not; or with a change of branches. */
  datatype Pushing = Refused | Unlinked | Cached | Extended | Rejected | Change(how: Switching)

  /** The same in full. A change of branches is one between `first` and `second`. */
  ghost predicate PushEnds<V(!new)>(laws: Laws<V>, s: State<V>, b: Block, keep: nat, r: Pushing,
                                    first: seq<F.Item>, second: seq<F.Item>, t: State<V>)
  {
    var c := F.Pushed(s.forks, b);
    && Consistent(laws, t) && Takes(s, b, r)
    && match r
       case Refused => t == s
       case Unlinked => t == s.(forks := c)
       case Cached => t == s.(forks := c)
       case Extended => Extends(laws, s.(forks := c), b, t, true)
       case Rejected => Extends(laws, s.(forks := c), b, t, false)
       case Change(how) =>
         Forked(c, s.blocks, first, second) && Changed(laws, s.(forks := c), first, second, keep, how, t)
  }

  /** Which way a push takes. It is refused only by the fork database; there it extends the chain exactly if the head
      of the fork database builds on the chain's; and a higher head is unlinked exactly if its cached ancestry never
      meets that of the chain's head. */
  ghost predicate Takes<V>(s: State<V>, b: Block, r: Pushing) {
    var c := F.Pushed(s.forks, b);
    && (r.Refused? <==> !F.Links(s.forks, b))
    && (!r.Refused? ==>
          && c.head.Some?
          && var head := c.head.value.block;
          && (r.Extended? || r.Rejected? <==> head.previous == HeadId(s.blocks))
          && (r.Cached? ==> head.Num() <= |s.blocks|)
          && (r.Unlinked? <==> Higher(c, s.blocks) && !F.Meet(c.index, head.Id(), HeadId(s.blocks)))
          && (r.Change? <==> Higher(c, s.blocks) && F.Meet(c.index, head.Id(), HeadId(s.blocks))))
  }

  /** The block has been applied on top of the chain, or it has left no trace but what it made the fork database
      forget. */
  ghost predicate Extends<V(!new)>(laws: Laws<V>, s: State<V>, b: Block, t: State<V>, ok: bool) {
    var left := CacheAfter(s.forks, laws.rules(s.log.store, b).ops);
    && Consistent(laws, t) && BlockApplied(laws, s, b, t.(forks := left), ok)
    && t.forks == if ok then left else left.(index := left.index - {b.Id()})
  }

  lemma ExtendsMeans<V(!new)>(laws: Laws<V>, s: State<V>, b: Block, t: State<V>, ok: bool)
    requires Extends(laws, s, b, t, ok)
    ensures Consistent(laws, t) && ok == laws.rules(s.log.store, b).ok && t.popped == s.popped
    ensures t.forks.index.Keys <= s.forks.index.Keys && t.forks.head == s.forks.head
    ensures if ok then
      && t.log.store == Applied(laws.rules, s.log.store, b) && t.blocks == s.blocks + [b]
      && b.previous == laws.headOf(s.log.store)
    else
      t.log.store == s.log.store && t.blocks == s.blocks && b.Id() !in t.forks.index
  {
    hide Consistent, CacheAfter, SizeAfter, SessionLog;
  }

  lemma BlockExtends<V(!new)>(laws: Laws<V>, s: State<V>, b: Block, t: State<V>, u: State<V>, ok: bool)
    requires BlockApplied(laws, s, b, t, ok)
    requires u == if ok then t else t.(forks := t.forks.(index := t.forks.index - {b.Id()}))
    ensures Extends(laws, s, b, u, ok)
  {
    hide Consistent, Applied, SizeAfter, CacheAfter, SessionLog, NamedIndex;
    assert t == u.(forks := t.forks);
    HeadIsKnown(laws, t);
    FewerAreNamed(laws.named, t.forks.index, {b.Id()});
    CacheConsistent(laws, t, u.forks);
  }

  /** From a steady state: where the state stays steady, and when the switch gets stuck. */
  ghost predicate PushIsSteady<V(!new)>(laws: Laws<V>, s: State<V>, b: Block, r: Pushing,
                                        first: seq<F.Item>, second: seq<F.Item>, t: State<V>)
  {
    && (SteadyAt(t.forks, t.blocks) || r.Unlinked? || r == Change(Stuck))
    && (r.Change? ==>
          && |first| == |second| + 1 && |second| <= |s.states|
          && (r.how.Stuck? <==>
              OnlyNewestFails(laws.rules, StateBack(s, |second|), F.Pushed(s.forks, b), first, second))
          && (r.how.Stuck? ==> t.log.store != s.log.store))
  }

  lemma PushStarts<V(!new)>(laws: Laws<V>, s: State<V>, b: Block, keep: nat)
    requires Consistent(laws, s) && EnoughHistory(laws, s, b, keep)
    ensures var c := F.Pushed(s.forks, b); var t := s.(forks := c);
      && c.head.Some?
      && (c.head.value.block.previous == laws.headOf(s.log.store) ==> RoomFor(laws, t, b))
      && (c.head.value.block.previous != laws.headOf(s.log.store)
          && c.head.value.block.Num() > laws.headOf(s.log.store).num ==>
            && Higher(c, s.blocks)
            && forall first, second :: Forked(c, t.blocks, first, second) ==> Roomy(laws, t, first, second, keep))
  {
    hide Consistent, F.NewHead, F.Pruned, HasRoom, AmpleBoth, F.Branches;
    HeadIsKnown(laws, s);
  }

  lemma PushRefused<V(!new)>(laws: Laws<V>, s: State<V>, b: Block, keep: nat)
    requires Consistent(laws, s) && !F.Links(s.forks, b)
    ensures PushEnds(laws, s, b, keep, Refused, [], [], s)
    ensures SteadyAt(s.forks, s.blocks) ==> PushIsSteady(laws, s, b, Refused, [], [], s)
  {
    hide Consistent, F.Pushed, F.Links, SteadyAt;
  }

  lemma PushExtends<V(!new)>(laws: Laws<V>, s: State<V>, b: Block, keep: nat, t: State<V>, ok: bool)
    requires Consistent(laws, s) && F.Links(s.forks, b) && Extends(laws, s.(forks := F.Pushed(s.forks, b)), b, t, ok)
    requires F.Pushed(s.forks, b).head.value.block.previous == laws.headOf(s.log.store)
    ensures var r := if ok then Extended else Rejected;
      && PushEnds(laws, s, b, keep, r, [], [], t)
      && (SteadyAt(s.forks, s.blocks) ==> PushIsSteady(laws, s, b, r, [], [], t))
  {
    hide Consistent, F.Pushed, F.Links, SteadyAt, Applied, Linked, Extends, F.Meet;
    HeadIsKnown(laws, s);
    ExtendsMeans(laws, s.(forks := F.Pushed(s.forks, b)), b, t, ok);
    if SteadyAt(s.forks, s.blocks) {
      SteadyExtended(s.forks, b, s.blocks, t.forks, ok);
    }
  }

  lemma PushCaches<V(!new)>(laws: Laws<V>, s: State<V>, b: Block, keep: nat, t: State<V>)
    requires Consistent(laws, s) && Consistent(laws, t) && F.Links(s.forks, b) && t == s.(forks := F.Pushed(s.forks, b))
    requires F.Pushed(s.forks, b).head.value.block.Num() <= laws.headOf(s.log.store).num
    requires F.Pushed(s.forks, b).head.value.block.previous != laws.headOf(s.log.store)
    ensures PushEnds(laws, s, b, keep, Cached, [], [], t)
    ensures SteadyAt(s.forks, s.blocks) ==> PushIsSteady(laws, s, b, Cached, [], [], t)
  {
    hide Consistent, F.Pushed, F.Links, SteadyAt, Linked, F.Meet;
    HeadIsKnown(laws, s);
    if SteadyAt(s.forks, s.blocks) {
      SteadyCached(s.forks, b, s.blocks);
    }
  }

  lemma MeetIffForked(c: F.Cache, blocks: seq<Block>)
    requires F.Valid(c.index) && c.head.Some?
    ensures F.Meet(c.index, c.head.value.block.Id(), HeadId(blocks)) <==>
      exists first, second :: Forked(c, blocks, first, second)
  {
    hide F.Meet, F.Branches, HeadId;
    var id, head := c.head.value.block.Id(), HeadId(blocks);
    F.MeetIffBranches(c.index, id, head);
    if first, second :| F.Branches(c.index, id, head, first, second) {
      assert Forked(c, blocks, first, second);
    }
  }

  lemma {:induction false} PushReorganizes<V(!new)>(
      laws: Laws<V>, s: State<V>, b: Block, keep: nat, how: Option<Switching>, first: seq<F.Item>,
      second: seq<F.Item>, t: State<V>)
    requires Consistent(laws, s) && laws.named(b.Id()) == b && F.Links(s.forks, b)
    requires Higher(F.Pushed(s.forks, b), s.blocks)
    requires var c := F.Pushed(s.forks, b);
      if how.None? then
        Consistent(laws, t) && t == s.(forks := c) && forall first, second :: !Forked(c, s.blocks, first, second)
      else
        Forked(c, s.blocks, first, second) && Changed(laws, s.(forks := c), first, second, keep, how.value, t)
    ensures var r := if how.None? then Unlinked else Change(how.value);
      && PushEnds(laws, s, b, keep, r, first, second, t)
      && (SteadyAt(s.forks, s.blocks) ==> PushIsSteady(laws, s, b, r, first, second, t))
  {
    hide Consistent, F.Pushed, F.Links, SteadyAt, Forked, Changed, OnlyNewestFails, F.Meet;
    HeadIsKnown(laws, s);
    PushedNamed(laws.named, s.forks, b);
    MeetIffForked(F.Pushed(s.forks, b), s.blocks);
    if how.Some? {
      ChangedFacts(laws, s.(forks := F.Pushed(s.forks, b)), first, second, keep, how.value, t);
      if SteadyAt(s.forks, s.blocks) {
        ChangedSteadily(laws, s, b, first, second, keep, how.value, t);
      }
    }
  }

  /** A push is atomic unless its switch gets stuck. */
  lemma PushIsAtomic<V(!new)>(laws: Laws<V>, s: State<V>, b: Block, keep: nat, r: Pushing,
                              first: seq<F.Item>, second: seq<F.Item>, t: State<V>)
    requires PushEnds(laws, s, b, keep, r, first, second, t)
    ensures r == Extended || r == Change(Switched) || r == Change(Stuck)
      || (t.log.store == s.log.store && t.blocks == s.blocks)
  {
    hide Ended, Consistent, Forked, Takes, F.Pushed, F.Valid, StateBack, Extends, BroughtBack, CacheAlong;
    if r.Rejected? {
      ExtendsMeans(laws, s.(forks := F.Pushed(s.forks, b)), b, t, false);
    }
  }

  /** In a woven cache the ids decide: a higher block is never left unlinked if its cached ancestry meets that of the
      chain's head. */
  lemma SharedAncestryIsFound<V(!new)>(
      laws: Laws<V>, s: State<V>, b: Block, keep: nat, r: Pushing, first: seq<F.Item>, second: seq<F.Item>,
      t: State<V>, p: seq<BlockId>, q: seq<BlockId>)
    requires PushEnds(laws, s, b, keep, r, first, second, t) && F.Woven(F.Pushed(s.forks, b).index)
    requires var c := F.Pushed(s.forks, b);
      && F.Path(c.index, p) && c.head.Some? && p[0] == c.head.value.block.Id()
      && F.Path(c.index, q) && q[0] == HeadId(s.blocks)
      && c.index[p[|p| - 1]].block.previous == c.index[q[|q| - 1]].block.previous
    ensures !r.Unlinked?
  {
    hide Consistent, F.Pushed, F.Links, Higher, F.Woven, F.Prev, HeadId, Changed, Extends;
    var c := F.Pushed(s.forks, b);
    F.PathIsChain(c.index, p);
    F.PathIsChain(c.index, q);
    var xs := seq(|p|, i requires 0 <= i < |p| => c.index[p[i]]);
    var ys := seq(|q|, i requires 0 <= i < |q| => c.index[q[i]]);
    assert F.Meeting(c.index, p[0], q[0], xs, ys);
  }

  class ChainDatabase<V(!new)> {
    const laws: Laws<V>
    var log: Log<V>
    /** The blocks of the current chain, oldest first. */
    var blocks: seq<Block>
    var popped: seq<nat>
    var forks: F.Cache
    ghost var copies: Snapshots<V>
    ghost var states: seq<Store<V>>

    ghost function Now(): State<V>
      reads this
    {
      State(log, copies, states, blocks, popped, forks)
    }

    ghost predicate Valid()
      reads this
    {
      Consistent(laws, Now())
    }

    /** A chain without blocks, with recording on. */
    constructor (laws: Laws<V>, genesis: Store<V>, maxSize: nat)
      requires Sound(laws.rules, laws.headOf) && WellFormed(genesis) && laws.headOf(genesis) == ZERO_ID
      ensures Valid() && SteadyAt(forks, blocks) && this.laws == laws
      ensures Now() == State(Fresh(genesis, maxSize), copies, [], [], [], F.Cache(map[], None, 1024, 0))
    {
      GenesisConsistent(laws, genesis, maxSize);
      hide Consistent, Sound, WellFormed, Fresh;
      this.laws, log, forks := laws, Fresh(genesis, maxSize), F.Cache(map[], None, 1024, 0);
      blocks, popped := [], [];
      copies, states := Snapshots(genesis, [], 0, maxSize), [];
    }

    /** Start a session, apply, and commit; a throwing block is unwound when the session is dropped. */
    method ApplyBlock(b: Block) returns (ok: bool)
      requires Valid() && laws.named(b.Id()) == b && RoomFor(laws, Now(), b)
      modifies this
      ensures BlockApplied(laws, old(Now()), b, Now(), ok)
    {
      hide Consistent, SessionLog, CacheAfter, SizeAfter, Applied, RoomFor;
      ghost var next := ApplyConsistent(laws, Now(), b);
      var plan := laws.rules(log.store, b);
      ok := plan.ok;
      forks := CacheAfter(forks, plan.ops);
      log := SessionLog(log, plan);
      if ok {
        blocks := blocks + [b];
      }
      copies, states := next.copies, next.states;
      assert Now() == next;
    }

    /** Take the newest block's undo entry back, and queue its transactions in front. */
    method PopEntry()
      requires Valid() && blocks != [] && states != []
      modifies this
      ensures Valid() && log.maxSize == old(log.maxSize) && log.store == Last(old(states))
      ensures states == Init(old(states))
      ensures blocks == Init(old(blocks)) && popped == Last(old(blocks)).transactions + old(popped)
      ensures forks == old(forks)
    {
      hide Holds, History, Sound, Linked, Named, NamedIndex, HeadId, Step;
      ghost var next := PopConsistent(laws, Now());
      log := Step(log, PopCommit);
      popped := blocks[|blocks| - 1].transactions + popped;
      blocks := blocks[..|blocks| - 1];
      copies, states := next.copies, next.states;
      assert Now() == next.(popped := popped);
    }

    /** Take the newest block off the chain. Besides the cached items those in `held` are alive. */
    method PopBlock(held: F.Index) returns (ok: bool)
      requires Valid() && NamedIndex(laws.named, held) && (blocks != [] && log.stack != [] ==> states != [])
      modifies this
      ensures PopEnds(laws, old(Now()), old(forks).index + held, Now(), ok)
    {
      hide Consistent, NamedIndex, F.Prev, F.Valid, F.Depth, HeadDepth, CanPop, Popped;
      ghost var s, live := Now(), forks.index + held;
      HeadIsKnown(laws, s);
      BothAreNamed(laws.named, forks.index, held);
      CanPopWhenLinked(s, live);
      var prev := if forks.head.None? then None else F.Prev(forks.index + held, forks.head.value);
      ok := blocks != [] && prev.Some?;
      if ok {
        CacheConsistent(laws, s, forks.(head := prev));
        forks := forks.(head := prev);
        ok := log.stack != [];
        if ok {
          PopEntry();
          CanPopMeans(s, live);
          PoppedOne(laws, s, live, Now());
        }
      }
    }

    /** Pop until the head is the given block, or until the fork database has nothing left to pop. */
    method PopTo(target: BlockId, ghost depth: nat, held: F.Index) returns (ok: bool)
      requires Valid() && NamedIndex(laws.named, held)
      requires depth <= |states| && laws.headOf(StateBack(Now(), depth)) == target
      modifies this
      ensures PopToEnds(laws, old(Now()), depth, old(forks).index + held, Now(), ok)
    {
      hide Consistent, NamedIndex, F.Valid, HeadDepth, Popped, PopEnds;
      ghost var s, live, n := Now(), forks.index + held, 0;
      HeadIsKnown(laws, s);
      BothAreNamed(laws.named, forks.index, held);
      PoppedZero(laws, s, live);
      while laws.headOf(log.store) != target
        invariant n <= depth && Popped(laws, s, live, n, Now())
        decreases depth - n
      {
        PopsOn(laws, s, live, n, Now(), depth);
        ghost var t := Now();
        ok := PopBlock(held);
        PopsOneMore(laws, s, live, n, t, Now(), ok);
        if !ok { return; }
        n := n + 1;
      }
      PoppedToTarget(laws, s, live, n, Now(), depth);
      PopsEnd(laws, s, live, n, Now());
      return true;
    }

    /** Apply a branch that lies newest first, stopping at the first block that throws. */
    method ApplyBranch(branch: seq<Block>) returns (failed: nat)
      requires Valid() && Named(laws.named, branch)
      requires Ample(laws.rules, log.store, states, log.maxSize, Rev(branch))
      modifies this
      ensures BranchApplied(laws, old(Now()), branch, Now(), failed)
    {
      hide Consistent, Ample, OnBranch, BranchApplied, BlockApplied, RoomFor, Named, Rev;
      ghost var s, bs, j := Now(), Rev(branch), 0;
      BranchStarts(laws, s, bs);
      failed := |branch|;
      while failed > 0
        invariant failed <= |branch| && j == |branch| - failed && OnBranch(laws, s, bs, j, Now())
      {
        ghost var t := Now();
        BranchHasRoom(laws, s, bs, j, t);
        NextInBranch(laws.named, branch, j);
        var ok := ApplyBlock(branch[failed - 1]);
        AppliedMeans(laws, t, bs[j], Now(), ok);
        if !ok {
          BranchStops(laws, s, branch, j, t, Now());
          return;
        }
        BranchGoesOn(laws, s, bs, j, t, Now());
        failed, j := failed - 1, j + 1;
      }
      BranchIsDone(laws, s, branch, Now());
    }

    /** The failed block and everything built on it are invalid. */
    method DropFromForkDatabase(first: seq<Block>, failed: nat)
      requires failed <= |first|
      modifies this`forks
      ensures forks == old(forks).(index := old(forks).index - InvalidIds(first, |first| - failed))
    {
      var i := failed;
      while i > 0
        invariant 0 <= i <= failed
        invariant forks == old(forks).(index := old(forks).index - (set k | i <= k < failed :: first[k].Id()))
      {
        i := i - 1;
        forks := forks.(index := forks.index - {first[i].Id()});
      }
    }

    /** Forget the invalid blocks, and make the old head the head of the fork database again. */
    method SetHeadBack(f: seq<Block>, failed: nat, oldHead: F.Item)
      requires Valid() && failed <= |f|
      modifies this`forks
      ensures Valid() && Now() == SetBack(old(Now()), f, |f| - failed, oldHead)
    {
      hide Consistent, NamedIndex, InvalidIds;
      HeadIsKnown(laws, Now());
      FewerAreNamed(laws.named, forks.index, InvalidIds(f, |f| - failed));
      CacheConsistent(laws, Now(), SetBack(Now(), f, |f| - failed, oldHead).forks);
      DropFromForkDatabase(f, failed);
      forks := forks.(head := Some(oldHead));
    }

    /** Drop what cannot be applied, take the new branch off again as far as it went, and put the old one back. The
        first of these pops may fail: the fork database has been set back to the old head, and not enough of its
        ancestors may be alive. */
    method GoBack(f: seq<Block>, failed: nat, second: seq<F.Item>, held: F.Index, ghost base: seq<Block>)
      returns (ok: bool)
      requires Valid() && NamedIndex(laws.named, held) && second != [] && failed <= |f| && |f| - failed <= |states|
      requires MayGoBack(laws, Now(), f, |f| - failed, second, base)
      modifies this
      ensures WentBack(laws, old(Now()), f, |f| - failed, second, held, old(StateBack(Now(), |f| - failed)), base,
        Now(), ok)
    {
      hide Consistent, NamedIndex, MayGoBack, WentBack, InvalidIds, PopToEnds, BranchApplied, Ample, Rev, BlocksOf,
           Named;
      ghost var s, applied, fork := Now(), |f| - failed, StateBack(Now(), |f| - failed);
      GoingBack(laws, s, f, applied, second, base);
      SetHeadBack(f, failed, second[0]);
      ghost var t := Now();
      ok := PopTo(second[|second| - 1].block.previous, applied, held);
      ghost var u := Now();
      if !ok {
        BackHalfway(laws, s, f, applied, second, held, base, t, u);
        return;
      }
      BackAtFork(laws, s, f, applied, second, held, base, t, u);
      var unrestored := ApplyBranch(BlocksOf(second));
      BackAgain(laws, s, f, applied, second, held, base, t, u, Now(), unrestored);
    }

    /** At the fork point: apply the new branch; if a block of it throws, put the old one back. */
    method TryBranch(first: seq<F.Item>, second: seq<F.Item>, held: F.Index) returns (r: Switching)
      requires Valid() && NamedIndex(laws.named, held) && first != [] && second != []
      requires MayTry(laws, Now(), first, second)
      modifies this
      ensures Tried(laws, old(Now()), first, second, held, r, Now())
    {
      hide Consistent, NamedIndex, MayTry, MayGoBack, BranchApplied, WentBack, Tried, Ample, Rev, BlocksOf, Named;
      ghost var s := Now();
      Trying(laws, s, first, second);
      var failed := ApplyBranch(BlocksOf(first));
      ghost var t := Now();
      if failed == 0 {
        TriedForward(laws, s, first, second, held, t);
        return Switched;
      }
      TriedAndFailed(laws, s, first, second, t, failed);
      var ok := GoBack(BlocksOf(first), failed, second, held, s.blocks);
      TriedBack(laws, s, first, second, held, t, failed, Now(), ok);
      return if ok then RolledBack else Stuck;
    }

    /** Leave the old branch for the new one; if a block of the new branch throws, go back. */
    method SwitchForks(first: seq<F.Item>, second: seq<F.Item>, ghost keep: nat) returns (r: Switching)
      requires Valid() && Forked(forks, blocks, first, second) && Roomy(laws, Now(), first, second, keep)
      modifies this
      ensures Changed(laws, old(Now()), first, second, keep, r, Now())
    {
      hide Consistent, NamedIndex, Forked, Roomy, PopToEnds, MayTry, Tried, Changed, F.Held, Named, Rev, BlocksOf,
           ApplyAll;
      ghost var s := Now();
      var held := F.Held(forks.index, first + second);
      RoomyMeans(laws, s, first, second, keep);
      SwitchStarts(laws, s, first, second);
      var ok := PopTo(second[|second| - 1].block.previous, |second|, held);
      ghost var at := Now();
      if !ok {
        CannotLeave(laws, s, first, second, keep, at);
        return Stuck;
      }
      HasLeft(laws, s, first, second, keep, at);
      states := Newest(states, keep);
      r := TryBranch(first, second, held);
      TriedIsChanged(laws, s, first, second, keep, at, r, Now());
    }

    method CacheBlock(b: Block) returns (ok: bool)
      requires Valid() && laws.named(b.Id()) == b
      modifies this`forks
      ensures Valid() && ok == F.Links(old(forks), b) && forks == if ok then F.Pushed(old(forks), b) else old(forks)
    {
      hide Consistent, NamedIndex, F.Pushed, F.Links, F.Valid;
      HeadIsKnown(laws, Now());
      var pushed := F.Push(forks, b);
      if pushed.None? { return false; }
      PushedNamed(laws.named, forks, b);
      CacheConsistent(laws, Now(), pushed.value);
      forks := pushed.value;
      return true;
    }

    /** Apply the block on top of the chain; a block that throws leaves the fork database too. */
    method Extend(b: Block) returns (ok: bool)
      requires Valid() && laws.named(b.Id()) == b && RoomFor(laws, Now(), b)
      modifies this
      ensures Extends(laws, old(Now()), b, Now(), ok)
    {
      hide Consistent, NamedIndex, RoomFor, BlockApplied, Extends;
      ghost var s := Now();
      ok := ApplyBlock(b);
      ghost var t := Now();
      if !ok {
        forks := forks.(index := forks.index - {b.Id()});
      }
      BlockExtends(laws, s, b, t, Now(), ok);
    }

    /** Find the branches that lead to the head of the fork database and to the chain's, and switch. */
    method Reorganize(ghost keep: nat)
      returns (r: Option<Switching>, ghost first: seq<F.Item>, ghost second: seq<F.Item>)
      requires Valid() && forks.head.Some?
      requires forall first, second :: Forked(forks, blocks, first, second) ==> Roomy(laws, Now(), first, second, keep)
      modifies this
      ensures r.None? ==> Now() == old(Now()) && forall first, second :: !Forked(forks, blocks, first, second)
      ensures r.Some? ==>
        Forked(old(forks), old(blocks), first, second) && Changed(laws, old(Now()), first, second, keep, r.value, Now())
    {
      hide Consistent, NamedIndex, Changed, Roomy, HeadId, F.Branches, F.Valid;
      HeadIsKnown(laws, Now());
      first, second := [], [];
      var branches := F.FetchBranchFrom(forks.index, forks.head.value.block.Id(), laws.headOf(log.store));
      if branches.None? { return None, first, second; }
      first, second := branches.value.0, branches.value.1;
      assert Forked(forks, blocks, first, second);
      var how := SwitchForks(branches.value.0, branches.value.1, keep);
      return Some(how), first, second;
    }

    /** Push a block: into the fork database, and from there onto the chain, or onto another branch that has become
        higher. From a steady state the push leads to a steady state, unless the higher branch does not lead back to
        the chain or the switch gets stuck; and it gets stuck exactly if only the pushed block fails and the parent
        of the fork is gone. */
    method PushBlock(b: Block, ghost keep: nat)
      returns (r: Pushing, ghost first: seq<F.Item>, ghost second: seq<F.Item>)
      requires Valid() && laws.named(b.Id()) == b && EnoughHistory(laws, Now(), b, keep)
      modifies this
      ensures PushEnds(laws, old(Now()), b, keep, r, first, second, Now())
      ensures SteadyAt(old(forks), old(blocks)) ==> PushIsSteady(laws, old(Now()), b, r, first, second, Now())
    {
      hide Consistent, HeadId, RoomFor, Roomy, PushEnds, PushIsSteady, Extends, Changed, SteadyAt, F.Pushed, F.Links,
           F.Valid;
      hide Higher, Forked;
      ghost var s := Now();
      first, second := [], [];
      HeadIsKnown(laws, s);
      PushStarts(laws, s, b, keep);
      var ok := CacheBlock(b);
      if !ok {
        r := Refused;
        PushRefused(laws, s, b, keep);
      } else if forks.head.value.block.previous == laws.headOf(log.store) {
        ok := Extend(b);
        r := if ok then Extended else Rejected;
        PushExtends(laws, s, b, keep, Now(), ok);
      } else if forks.head.value.block.Num() <= laws.headOf(log.store).num {
        r := Cached;
        PushCaches(laws, s, b, keep, Now());
      } else {
        var how;
        how, first, second := Reorganize(keep);
        r := if how.None? then Unlinked else Change(how.value);
        PushReorganizes(laws, s, b, keep, how, first, second, Now());
      }
    }
  }
}
