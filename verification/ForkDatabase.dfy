/** The tree of recent blocks, and the two branches that lead back from two of them to a common parent. */
module ForkDatabase {
  import opened Common
  import opened Blocks

  /** A cached block. The stamp tells it from an earlier or later item for the same block, and `parent` is the stamp of
      the item it was linked to when it was pushed. */
  datatype Item = Item(block: Block, stamp: nat, parent: Option<nat>)

  type Index = map<BlockId, Item>

  ghost predicate Valid(index: Index) {
    forall id <- index :: index[id].block.Id() == id
  }

  /** The parent pointer is weak: it is gone once that item has left the index, even if the block comes back. */
  function Prev(index: Index, it: Item): Option<Item> {
    var id := it.block.previous;
    if id in index && it.parent == Some(index[id].stamp) then Some(index[id]) else None
  }

  /** How often the head of the fork database can be popped: the linked ancestors that are still cached. */
  function Depth(index: Index, it: Item): nat
    requires Valid(index)
    decreases it.block.Num()
  {
    var prev := Prev(index, it);
    if prev.None? then 0 else 1 + Depth(index, prev.value)
  }

  ghost predicate Chain(index: Index, start: BlockId, xs: seq<Item>) {
    && start in index && xs != [] && xs[0] == index[start]
    && forall i :: 0 < i < |xs| ==> Prev(index, xs[i - 1]) == Some(xs[i])
  }

  /** Two parent-linked chains whose last blocks share a parent, and no higher pair of equal height does. */
  ghost predicate Branches(index: Index, first: BlockId, second: BlockId, a: seq<Item>, b: seq<Item>) {
    && Chain(index, first, a) && Chain(index, second, b)
    && a[|a| - 1].block.previous == b[|b| - 1].block.previous
    && forall i, j :: 0 <= i < |a| && 0 <= j < |b| && a[i].block.previous == b[j].block.previous
         ==> i == |a| - 1 && j == |b| - 1
  }

  lemma {:induction false} ChainHeights(index: Index, start: BlockId, xs: seq<Item>, i: nat)
    requires Valid(index) && Chain(index, start, xs) && i < |xs|
    ensures xs[i].block.Num() == start.num - i
    ensures xs[i].block.Id() in index && index[xs[i].block.Id()] == xs[i]
  {
    if i > 0 {
      ChainHeights(index, start, xs, i - 1);
      assert Prev(index, xs[i - 1]) == Some(xs[i]);
    }
  }

  /** There is only one way back. */
  lemma {:induction false} ChainsAgree(index: Index, start: BlockId, xs: seq<Item>, ys: seq<Item>, i: nat)
    requires Chain(index, start, xs) && Chain(index, start, ys) && i < |xs| && i < |ys|
    ensures xs[i] == ys[i]
  {
    if i > 0 {
      ChainsAgree(index, start, xs, ys, i - 1);
      assert Prev(index, xs[i - 1]) == Some(xs[i]);
      assert Prev(index, ys[i - 1]) == Some(ys[i]);
    }
  }

  /** The walk has reached the last element of `fst` + [at], and every answer passes through it. */
  ghost predicate OnTheWay(index: Index, first: BlockId, second: BlockId, fst: seq<Item>, at: Item, snd: seq<Item>,
                           bt: Item) {
    && Chain(index, first, fst + [at]) && Chain(index, second, snd + [bt])
    && forall a, b :: Branches(index, first, second, a, b) ==> |fst| < |a| && |snd| < |b|
  }

  lemma Extended(index: Index, start: BlockId, xs: seq<Item>, next: Item)
    requires Chain(index, start, xs) && Prev(index, xs[|xs| - 1]) == Some(next)
    ensures Chain(index, start, xs + [next])
  {
  }

  /** While the first walker is strictly higher, or the two parents differ, no answer ends where it stands. */
  lemma NotLast(index: Index, first: BlockId, second: BlockId, fst: seq<Item>, at: Item, snd: seq<Item>, bt: Item,
                a: seq<Item>, b: seq<Item>)
    requires Valid(index) && OnTheWay(index, first, second, fst, at, snd, bt) && Branches(index, first, second, a, b)
    requires at.block.Num() > bt.block.Num() ||
             (at.block.Num() == bt.block.Num() && at.block.previous != bt.block.previous)
    ensures |fst| + 1 < |a| && Prev(index, at) == Some(a[|fst| + 1])
    ensures at.block.Num() == bt.block.Num() ==> |snd| + 1 < |b| && Prev(index, bt) == Some(b[|snd| + 1])
  {
    ChainsAgree(index, first, fst + [at], a, |fst|);
    ChainsAgree(index, second, snd + [bt], b, |snd|);
    ChainHeights(index, first, a, |fst|);
    ChainHeights(index, second, b, |snd|);
    ChainHeights(index, first, a, |a| - 1);
    ChainHeights(index, second, b, |b| - 1);
  }

  /** Walk back from both blocks until their parents coincide. */
  method FetchBranchFrom(index: Index, first: BlockId, second: BlockId) returns (r: Option<(seq<Item>, seq<Item>)>)
    requires Valid(index)
    ensures r.Some? ==> Branches(index, first, second, r.value.0, r.value.1)
    ensures r.None? ==> forall a, b :: !Branches(index, first, second, a, b)
  {
    if first !in index || second !in index { return None; }
    var fst, snd: seq<Item> := [], [];
    var at, bt := index[first], index[second];
    while at.block.Num() > bt.block.Num()
      invariant OnTheWay(index, first, second, fst, at, snd, bt)
      invariant snd == [] && (fst != [] ==> at.block.Num() >= bt.block.Num())
      invariant forall i :: 0 <= i < |fst| ==> fst[i].block.Num() > bt.block.Num()
      decreases at.block.Num()
    {
      forall a, b | Branches(index, first, second, a, b)
        ensures |fst| + 1 < |a| && Prev(index, at) == Some(a[|fst| + 1])
      {
        NotLast(index, first, second, fst, at, snd, bt, a, b);
      }
      var prev := Prev(index, at);
      if prev.None? { return None; }
      Extended(index, first, fst + [at], prev.value);
      fst, at := fst + [at], prev.value;
    }
    while bt.block.Num() > at.block.Num()
      invariant OnTheWay(index, first, second, fst, at, snd, bt)
      invariant fst == [] || bt.block.Num() == at.block.Num()
      invariant forall i :: 0 <= i < |fst| ==> fst[i].block.Num() > bt.block.Num()
      invariant forall j :: 0 <= j < |snd| ==> snd[j].block.Num() > at.block.Num()
      invariant fst == [] || snd == []
      invariant bt.block.Num() >= at.block.Num()
      decreases bt.block.Num()
    {
      forall a, b | Branches(index, first, second, a, b)
        ensures |snd| + 1 < |b| && Prev(index, bt) == Some(b[|snd| + 1])
      {
        Mirrored(index, first, second, a, b);
        Swapped(index, first, second, fst, at, snd, bt);
        NotLast(index, second, first, snd, bt, fst, at, b, a);
      }
      var prev := Prev(index, bt);
      if prev.None? { return None; }
      Extended(index, second, snd + [bt], prev.value);
      snd, bt := snd + [bt], prev.value;
    }
    while at.block.previous != bt.block.previous
      invariant OnTheWay(index, first, second, fst, at, snd, bt)
      invariant at.block.Num() == bt.block.Num()
      invariant Apart(fst, snd, at.block.Num())
      decreases at.block.Num()
    {
      forall a, b | Branches(index, first, second, a, b)
        ensures |fst| + 1 < |a| && |snd| + 1 < |b|
        ensures Prev(index, at).Some? && Prev(index, bt).Some?
      {
        NotLast(index, first, second, fst, at, snd, bt, a, b);
      }
      var prev, prev' := Prev(index, at), Prev(index, bt);
      if prev.None? || prev'.None? { return None; }
      Extended(index, first, fst + [at], prev.value);
      Extended(index, second, snd + [bt], prev'.value);
      fst, at, snd, bt := fst + [at], prev.value, snd + [bt], prev'.value;
    }
    r := Some((fst + [at], snd + [bt]));
  }

  /** The collected blocks lie above the walkers, and no two of them have a common parent. */
  ghost predicate Apart(fst: seq<Item>, snd: seq<Item>, height: nat) {
    && (forall i :: 0 <= i < |fst| ==> fst[i].block.Num() > height)
    && (forall j :: 0 <= j < |snd| ==> snd[j].block.Num() > height)
    && forall i, j :: 0 <= i < |fst| && 0 <= j < |snd| ==> fst[i].block.previous != snd[j].block.previous
  }

  lemma Mirrored(index: Index, first: BlockId, second: BlockId, a: seq<Item>, b: seq<Item>)
    requires Branches(index, first, second, a, b)
    ensures Branches(index, second, first, b, a)
  {
  }

  lemma Swapped(index: Index, first: BlockId, second: BlockId, fst: seq<Item>, at: Item, snd: seq<Item>, bt: Item)
    requires OnTheWay(index, first, second, fst, at, snd, bt)
    ensures OnTheWay(index, second, first, snd, bt, fst, at)
  {
    forall a, b | Branches(index, second, first, a, b) ensures |snd| < |a| && |fst| < |b| {
      Mirrored(index, second, first, a, b);
    }
  }

  /** The answer is determined by its specification. */
  lemma BranchesUnique(index: Index, first: BlockId, second: BlockId, a: seq<Item>, b: seq<Item>, c: seq<Item>,
                       d: seq<Item>)
    requires Valid(index) && Branches(index, first, second, a, b) && Branches(index, first, second, c, d)
    ensures a == c && b == d
  {
    SameLength(index, first, second, a, b, c, d);
    SameLength(index, first, second, c, d, a, b);
    forall i | 0 <= i < |a| ensures a[i] == c[i] { ChainsAgree(index, first, a, c, i); }
    forall i | 0 <= i < |b| ensures b[i] == d[i] { ChainsAgree(index, second, b, d, i); }
  }

  lemma SameLength(index: Index, first: BlockId, second: BlockId, a: seq<Item>, b: seq<Item>, c: seq<Item>,
                   d: seq<Item>)
    requires Valid(index) && Branches(index, first, second, a, b) && Branches(index, first, second, c, d)
    ensures |a| >= |c| && |b| >= |d|
  {
    ChainHeights(index, first, a, |a| - 1);
    ChainHeights(index, second, b, |b| - 1);
    ChainHeights(index, first, c, |c| - 1);
    ChainHeights(index, second, d, |d| - 1);
    if |a| < |c| {
      assert |b| < |d|;
      ChainsAgree(index, first, a, c, |a| - 1);
      ChainsAgree(index, second, b, d, |b| - 1);
    }
  }

  /** The n-th linked ancestor. */
  function Back(index: Index, it: Item, n: nat): (r: Item)
    requires Valid(index) && n <= Depth(index, it)
    ensures Depth(index, r) == Depth(index, it) - n && r.block.Num() == it.block.Num() - n
  {
    if n == 0 then it else Prev(index, Back(index, it, n - 1)).value
  }

  /** Every ancestor is one lower, and none is below block 1. */
  lemma {:induction false} DepthBelowHeight(index: Index, it: Item)
    requires Valid(index)
    ensures Depth(index, it) < it.block.Num()
    decreases it.block.Num()
  {
    var prev := Prev(index, it);
    if prev.Some? {
      DepthBelowHeight(index, prev.value);
    }
  }

  lemma BackMore(index: Index, it: Item, n: nat)
    requires Valid(index) && n < Depth(index, it)
    ensures Prev(index, Back(index, it, n)) == Some(Back(index, it, n + 1))
  {
  }

  /** Along a chain the depth falls by one at each step. */
  lemma {:induction false} ChainDepth(index: Index, start: BlockId, xs: seq<Item>, i: nat)
    requires Valid(index) && Chain(index, start, xs) && i < |xs|
    ensures Depth(index, xs[i]) == |xs| - 1 - i + Depth(index, xs[|xs| - 1])
    decreases |xs| - i
  {
    if i + 1 < |xs| {
      assert Prev(index, xs[i]) == Some(xs[i + 1]);
      ChainDepth(index, start, xs, i + 1);
    }
  }

  /** The cached items among `xs`: local pointers keep them alive even after they have left the index. */
  function Held(index: Index, xs: seq<Item>): Index {
    map id | id in index && index[id] in xs :: index[id]
  }

  lemma HeldIsCached(index: Index, xs: seq<Item>)
    ensures index + Held(index, xs) == index
  {
  }

  /** A chain whose items are held outlives the index. */
  lemma HeldChain(index: Index, start: BlockId, xs: seq<Item>, ys: seq<Item>, later: Index)
    requires Valid(index) && Chain(index, start, xs) && forall x <- xs :: x in ys
    ensures Chain(later + Held(index, ys), start, xs)
  {
    var live := later + Held(index, ys);
    forall i | 0 <= i < |xs| ensures xs[i].block.Id() in live && live[xs[i].block.Id()] == xs[i] {
      ChainHeights(index, start, xs, i);
      assert xs[i] in xs;
    }
    ChainHeights(index, start, xs, 0);
    assert index[start].block.Id() == start;
    forall i | 0 < i < |xs| ensures Prev(live, xs[i - 1]) == Some(xs[i]) {
      assert Prev(index, xs[i - 1]) == Some(xs[i]);
      assert xs[i].block.Id() == xs[i - 1].block.previous;
    }
  }

  // ----- pushing

  /** The fork database: the cached blocks, the head, how many heights below it are kept, and the stamp of the next
      item. */
  datatype Cache = Cache(index: Index, head: Option<Item>, maxSize: nat, stamp: nat)

  /** A block is refused if it is too old to be cached, or if its parent is not cached. */
  predicate Links(c: Cache, b: Block) {
    c.head.Some? ==>
      && b.Num() + c.maxSize > c.head.value.block.Num()
      && (b.previous == ZERO_ID || b.previous in c.index)
  }

  function NewItem(c: Cache, b: Block): Item {
    var linked := c.head.Some? && b.previous != ZERO_ID && b.previous in c.index;
    Item(b, c.stamp, if linked then Some(c.index[b.previous].stamp) else None)
  }

  /** A block that is cached already keeps its item. */
  function Inserted(c: Cache, b: Block): Index {
    if b.Id() in c.index then c.index else c.index[b.Id() := NewItem(c, b)]
  }

  /** The block becomes the head if it is the highest. */
  predicate Rises(c: Cache, b: Block) { c.head.None? || b.Num() > c.head.value.block.Num() }

  function NewHead(c: Cache, b: Block): Item { if Rises(c, b) then NewItem(c, b) else c.head.value }

  /** Only the newest heights stay, once the head has moved up. */
  function Pruned(c: Cache, b: Block): Index {
    if c.head.Some? && Rises(c, b) then map id | id in Inserted(c, b) && id.num + c.maxSize >= b.Num() ::
        Inserted(c, b)[id]
    else Inserted(c, b)
  }

  function Pushed(c: Cache, b: Block): (d: Cache)
    ensures d.head.Some?
  {
    Cache(Pruned(c, b), Some(NewHead(c, b)), c.maxSize, c.stamp + 1)
  }

  /** What a push leaves in the cache: the new block and the old ones, as far as they are no more than the limit below
      a head that has just risen. What was cached stays the very item it was. */
  lemma PushKeeps(c: Cache, b: Block)
    requires Valid(c.index)
    ensures var d := Pushed(c, b);
      && d.maxSize == c.maxSize && d.stamp == c.stamp + 1 && Valid(d.index)
      && (forall id :: id in d.index <==>
            && (id in c.index || id == b.Id())
            && (c.head.Some? && b.Num() > c.head.value.block.Num() ==> b.Num() - id.num <= c.maxSize))
      && (forall id <- d.index :: id in c.index ==> d.index[id] == c.index[id])
      && (b.Id() !in c.index ==> d.index[b.Id()].block == b && d.index[b.Id()].stamp == c.stamp)
  {
  }

  /** The head is a highest block ever pushed: the new one exactly if it is higher than the head so far. */
  lemma PushRaisesHead(c: Cache, b: Block)
    requires Valid(c.index)
    ensures var d := Pushed(c, b);
      && d.head.Some? && d.head.value.block.Num() >= b.Num()
      && (c.head.Some? && c.head.value.block.Num() >= b.Num() ==> d.head == c.head)
      && (c.head.None? || c.head.value.block.Num() < b.Num() ==>
            d.head.value.block == b && (b.Id() !in c.index ==> d.head.value == d.index[b.Id()]))
  {
  }

  /** A new block, and a new head, is linked to the cached item of its parent, as long as that one is not too low to
      stay. */
  lemma PushLinksToParent(c: Cache, b: Block)
    requires Valid(c.index) && Links(c, b) && c.head.Some? && b.previous != ZERO_ID
    ensures var d, rises := Pushed(c, b), b.Num() > c.head.value.block.Num();
      var parent := if rises && c.maxSize == 0 then None else Some(c.index[b.previous]);
      && b.Id() in d.index
      && (b.Id() !in c.index ==> Prev(d.index, d.index[b.Id()]) == parent)
      && (rises ==> Prev(d.index, d.head.value) == parent)
  {
  }

  /** Stamps are given out in order, and nothing is linked to what comes later. */
  ghost predicate Stamped(c: Cache) {
    forall id <- c.index ::
      c.index[id].stamp < c.stamp && (c.index[id].parent.Some? ==> c.index[id].parent.value < c.index[id].stamp)
  }

  /** The other blocks keep the parents they had and that stay; none gets a new one, not even if its parent has just
      come back. */
  lemma PushKeepsParents(c: Cache, b: Block, id: BlockId)
    requires Valid(c.index) && Stamped(c) && id in c.index && id in Pushed(c, b).index
    ensures var d := Pushed(c, b);
      && Stamped(d)
      && Prev(d.index, d.index[id]) ==
           if c.index[id].block.previous in d.index then Prev(c.index, c.index[id]) else None
  {
  }

  /** Every cached block whose parent is cached is linked to it. */
  ghost predicate Woven(index: Index) {
    forall id <- index :: index[id].block.previous in index ==> Prev(index, index[id]).Some?
  }

  /** A push leaves a woven cache woven, unless it brings back a block whose children were still there. */
  lemma PushWeaves(c: Cache, b: Block)
    requires Valid(c.index) && Stamped(c) && Links(c, b) && Woven(c.index) && (c.head.None? ==> c.index == map[])
    ensures Stamped(Pushed(c, b))
    ensures Woven(Pushed(c, b).index) <==>
      b.Id() in c.index || forall id <- Pushed(c, b).index :: Pushed(c, b).index[id].block.previous != b.Id()
  {
    hide Links, Pushed, Prev, Stamped;
    var d := Pushed(c, b);
    StampedOn(c, b);
    PushKeeps(c, b);
    forall id | id in d.index && id in c.index
      ensures Prev(d.index, d.index[id]) ==
        if c.index[id].block.previous in d.index then Prev(c.index, c.index[id]) else None
    {
      PushKeepsParents(c, b, id);
    }
    forall id | id in c.index && c.index[id].block.previous !in c.index ensures Prev(c.index, c.index[id]).None? {
      NoParent(c.index, c.index[id]);
    }
    if b.Id() !in c.index {
      NewIsLinked(c, b);
      assert d.index[b.Id()].block == b;
      if id :| id in d.index && d.index[id].block.previous == b.Id() {
        assert id in c.index && Prev(d.index, d.index[id]).None?;
      }
    }
  }

  lemma NoParent(index: Index, it: Item)
    requires it.block.previous !in index
    ensures Prev(index, it).None?
  {
  }

  lemma NewIsLinked(c: Cache, b: Block)
    requires Valid(c.index) && Links(c, b) && b.Id() !in c.index && (c.head.None? ==> c.index == map[])
    ensures var d := Pushed(c, b);
      b.Id() in d.index && (b.previous in d.index ==> Prev(d.index, d.index[b.Id()]).Some?)
  {
    hide Prev, Pushed;
    PushKeeps(c, b);
    var d := Pushed(c, b);
    assert b.Id() in d.index;
    if b.previous in d.index {
      assert d.index[b.previous].block.Id() == b.previous;
      assert c.head.Some?;
      PushLinksToParent(c, b);
    }
  }

  lemma StampedOn(c: Cache, b: Block)
    requires Valid(c.index) && Stamped(c)
    ensures Stamped(Pushed(c, b))
  {
  }

  // ----- what the branches can be found from

  /** Some ancestries of the two blocks end in a common parent. */
  ghost predicate Meet(index: Index, first: BlockId, second: BlockId) {
    exists xs, ys :: Meeting(index, first, second, xs, ys)
  }

  ghost predicate Meeting(index: Index, first: BlockId, second: BlockId, xs: seq<Item>, ys: seq<Item>) {
    && Chain(index, first, xs) && Chain(index, second, ys)
    && xs[|xs| - 1].block.previous == ys[|ys| - 1].block.previous
  }

  /** Wherever two ancestries meet, there is a highest place where they do. */
  lemma {:induction false} MeetingBranches(
      index: Index, first: BlockId, second: BlockId, xs: seq<Item>, ys: seq<Item>) returns (a: seq<Item>, b: seq<Item>)
    requires Valid(index) && Meeting(index, first, second, xs, ys)
    ensures Branches(index, first, second, a, b)
    decreases |xs|
  {
    if i, j :| 0 <= i < |xs| - 1 && 0 <= j < |ys| && xs[i].block.previous == ys[j].block.previous {
      a, b := MeetingBranches(index, first, second, xs[..i + 1], ys[..j + 1]);
    } else {
      forall j | 0 <= j < |ys| && xs[|xs| - 1].block.previous == ys[j].block.previous ensures j == |ys| - 1 {
        ChainHeights(index, second, ys, j);
        ChainHeights(index, second, ys, |ys| - 1);
      }
      a, b := xs, ys;
    }
  }

  lemma MeetIffBranches(index: Index, first: BlockId, second: BlockId)
    requires Valid(index)
    ensures Meet(index, first, second) <==> exists a, b :: Branches(index, first, second, a, b)
  {
    if a, b :| Branches(index, first, second, a, b) {
      assert Meeting(index, first, second, a, b);
    }
    if xs, ys :| Meeting(index, first, second, xs, ys) {
      var a, b := MeetingBranches(index, first, second, xs, ys);
    }
  }

  /** Cached blocks, each naming the next as its parent. */
  ghost predicate Path(index: Index, ids: seq<BlockId>) {
    && ids != [] && (forall id <- ids :: id in index)
    && forall i :: 0 < i < |ids| ==> index[ids[i - 1]].block.previous == ids[i]
  }

  /** In a woven cache the ids are enough: every path of cached blocks is linked. */
  lemma PathIsChain(index: Index, ids: seq<BlockId>)
    requires Woven(index) && Path(index, ids)
    ensures Chain(index, ids[0], seq(|ids|, i requires 0 <= i < |ids| => index[ids[i]]))
  {
    forall i | 0 < i < |ids| ensures Prev(index, index[ids[i - 1]]) == Some(index[ids[i]]) {
      assert ids[i - 1] in ids && ids[i] in ids;
    }
  }

  /** Four blocks, pushed into an empty cache: two on one branch, then a longer one beside it. The last one becomes the
      head, and its branch is found. */
  lemma LongerForkIsFound(b1: Block, b2: Block, a2: Block, a3: Block)
    requires b1.previous == ZERO_ID && b2.previous == b1.Id() == a2.previous && a3.previous == a2.Id()
    requires a2.Id() != b2.Id()
    ensures var d := Pushed(Pushed(Pushed(Pushed(Cache(map[], None, 1024, 0), b1), b2), a2), a3);
      && d.head.value.block == a3 && a3.Id() in d.index && a2.Id() in d.index && b2.Id() in d.index
      && Branches(d.index, a3.Id(), b2.Id(), [d.index[a3.Id()], d.index[a2.Id()]], [d.index[b2.Id()]])
  {
    hide Pushed, Branches, Prev;
    var c := Pushed(Pushed(Pushed(Cache(map[], None, 1024, 0), b1), b2), a2);
    var d := Pushed(c, a3);
    TwoSiblings(b1, b2, a2);
    PushKeeps(c, a3);
    PushRaisesHead(c, a3);
    PushLinksToParent(c, a3);
    OneAndTwo(d.index, a3.Id(), b2.Id());
  }

  lemma TwoSiblings(b1: Block, b2: Block, a2: Block)
    requires b1.previous == ZERO_ID && b2.previous == b1.Id() == a2.previous && a2.Id() != b2.Id()
    ensures var c := Pushed(Pushed(Pushed(Cache(map[], None, 1024, 0), b1), b2), a2);
      && Valid(c.index) && c.index.Keys == {b1.Id(), b2.Id(), a2.Id()} && c.maxSize == 1024
      && c.index[b2.Id()].block == b2 && c.index[a2.Id()].block == a2
      && c.head.Some? && c.head.value.block == b2
  {
    OnePushed(b1);
    hide Pushed, Links, Prev;
    var c1 := Pushed(Cache(map[], None, 1024, 0), b1);
    PushKeeps(c1, b2);
    PushRaisesHead(c1, b2);
    PushKeeps(Pushed(c1, b2), a2);
    PushRaisesHead(Pushed(c1, b2), a2);
  }

  lemma OnePushed(b: Block)
    requires b.previous == ZERO_ID
    ensures var c := Pushed(Cache(map[], None, 1024, 0), b);
      && c.index == map[b.Id() := Item(b, 0, None)] && c.head == Some(Item(b, 0, None)) && c.maxSize == 1024
  {
  }

  /** A block on a parent that another block shares its own parent with. */
  lemma OneAndTwo(index: Index, first: BlockId, second: BlockId)
    requires Valid(index) && first in index && second in index && Prev(index, index[first]).Some?
    requires Prev(index, index[first]).value.block.previous == index[second].block.previous
    ensures Branches(index, first, second, [index[first], Prev(index, index[first]).value], [index[second]])
  {
    assert index[first].block.previous != index[second].block.previous;
  }

  /** Insert the item, and erase from the lowest height on while it is too low. */
  method Push(c: Cache, b: Block) returns (r: Option<Cache>)
    requires Valid(c.index)
    ensures r.None? <==> !Links(c, b)
    ensures r.Some? ==> r.value == Pushed(c, b) && Valid(r.value.index)
  {
    if c.head.Some? {
      var lowest := c.head.value.block.Num() - c.maxSize;
      if b.Num() <= (if lowest > 0 then lowest else 0) { return None; }
      if b.previous != ZERO_ID && b.previous !in c.index { return None; }
    }
    var it := NewItem(c, b);
    var index, head := Inserted(c, b), if c.head.None? then it else c.head.value;
    if b.Num() > head.block.Num() {
      var min := b.Num() - if c.maxSize <= b.Num() then c.maxSize else b.Num();
      head := it;
      index := EraseBelow(index, min);
    }
    return Some(Cache(index, Some(head), c.maxSize, c.stamp + 1));
  }

  /** A smaller limit takes effect at once. */
  function Trimmed(c: Cache, size: nat): Cache {
    c.(maxSize := size,
       index := if c.head.None? then c.index
                else map id | id in c.index && id.num + size >= c.head.value.block.Num() :: c.index[id])
  }

  method SetMaxSize(c: Cache, size: nat) returns (left: Cache)
    ensures left == Trimmed(c, size)
  {
    left := c.(maxSize := size);
    if c.head.None? { return; }
    var lowest := c.head.value.block.Num() - size;
    var index := EraseBelow(c.index, if lowest > 0 then lowest else 0);
    left := left.(index := index);
  }

  method EraseBelow(index: Index, min: nat) returns (left: Index)
    ensures left == map id | id in index && id.num >= min :: index[id]
  {
    left := index;
    while exists id :: id in left && id.num < min
      invariant left.Keys <= index.Keys && forall id <- left :: left[id] == index[id]
      invariant forall id <- index :: id.num >= min ==> id in left
      decreases |left|
    {
      var lowest :| lowest in left && lowest.num < min;
      left := left - {lowest};
    }
  }

  // ----- ancestors

  /** `x` is `id`, one of its cached ancestors, or the parent of the oldest of them. */
  ghost predicate Reaches(index: Index, id: BlockId, x: BlockId) {
    exists c: seq<Item> :: Chain(index, id, c) && (x == c[|c| - 1].block.Id() || x == c[|c| - 1].block.previous)
  }

  /** Anything reached from the start of a branch that is higher than the branch's parent lies on the branch. */
  lemma ReachedAbove(index: Index, id: BlockId, a: seq<Item>, x: BlockId) returns (i: nat)
    requires Valid(index) && Chain(index, id, a) && Reaches(index, id, x)
    requires x.num > a[|a| - 1].block.previous.num
    ensures i < |a| && a[i].block.Id() == x
  {
    var c: seq<Item> :| Chain(index, id, c) && (x == c[|c| - 1].block.Id() || x == c[|c| - 1].block.previous);
    ChainHeights(index, id, a, |a| - 1);
    ChainHeights(index, id, c, |c| - 1);
    assert |c| <= |a|;
    ChainsAgree(index, id, a, c, |c| - 1);
    i := if x == c[|c| - 1].block.Id() then |c| - 1 else |c|;
    if i == |c| {
      assert Prev(index, a[i - 1]) == Some(a[i]);
    }
  }

  /** When neither block descends from the other, the shared parent is their highest common ancestor. */
  lemma ParentIsHighestCommonAncestor(index: Index, first: BlockId, second: BlockId, a: seq<Item>, b: seq<Item>,
                                      x: BlockId)
    requires Valid(index) && Branches(index, first, second, a, b)
    requires !Reaches(index, first, second) && !Reaches(index, second, first)
    ensures var p := a[|a| - 1].block.previous;
      && Reaches(index, first, p) && Reaches(index, second, p)
      && (Reaches(index, first, x) && Reaches(index, second, x) ==> x.num <= p.num)
  {
    var p := a[|a| - 1].block.previous;
    if Reaches(index, first, x) && Reaches(index, second, x) && x.num > p.num {
      var i := ReachedAbove(index, first, a, x);
      var j := ReachedAbove(index, second, b, x);
      ChainHeights(index, first, a, i);
      ChainHeights(index, second, b, j);
      assert a[i] == b[j] == index[x];
      SharedLast(index, first, second, a, b);
    }
  }

  /** The branches lead back to the most recent common ancestor exactly when neither block descends from the other. */
  lemma HighestIffUnrelated(index: Index, first: BlockId, second: BlockId, a: seq<Item>, b: seq<Item>)
    requires Valid(index) && Branches(index, first, second, a, b)
    ensures (forall x :: Reaches(index, first, x) && Reaches(index, second, x) ==>
      x.num <= a[|a| - 1].block.previous.num)
      <==> !Reaches(index, first, second) && !Reaches(index, second, first)
  {
    if !Reaches(index, first, second) && !Reaches(index, second, first) {
      forall x | Reaches(index, first, x) && Reaches(index, second, x) ensures x.num <= a[|a| - 1].block.previous.num {
        ParentIsHighestCommonAncestor(index, first, second, a, b, x);
      }
    } else {
      ChainHeights(index, first, a, |a| - 1);
      ChainHeights(index, second, b, |b| - 1);
      assert Chain(index, first, [index[first]]) && Chain(index, second, [index[second]]);
      assert Reaches(index, first, first) && Reaches(index, second, second);
    }
  }

  /** A chain of two blocks: the branches from the second and the first meet below the first. */
  lemma MeetsBelowAncestor()
    ensures var (b1, b2) := (Block(ZERO_ID, 7, []), Block(BlockId(1, 7), 8, []));
      var (i1, i2) := (Item(b1, 0, None), Item(b2, 1, Some(0)));
      var index := map[b1.Id() := i1, b2.Id() := i2];
      && Valid(index) && Branches(index, b2.Id(), b1.Id(), [i2, i1], [i1])
      && Reaches(index, b2.Id(), b1.Id()) && [i2, i1][1].block.previous.num < b1.Id().num
  {
    var (b1, b2) := (Block(ZERO_ID, 7, []), Block(BlockId(1, 7), 8, []));
    var (i1, i2) := (Item(b1, 0, None), Item(b2, 1, Some(0)));
    var index := map[b1.Id() := i1, b2.Id() := i2];
    assert Prev(index, i2) == Some(i1);
    assert Chain(index, b2.Id(), [i2, i1]) && Chain(index, b1.Id(), [i1]);
  }

  /** If the two branches end in the same block, it is one of the two blocks asked for. */
  lemma SharedLast(index: Index, first: BlockId, second: BlockId, a: seq<Item>, b: seq<Item>)
    requires Valid(index) && Branches(index, first, second, a, b) && a[|a| - 1] == b[|b| - 1]
    ensures Reaches(index, first, second) || Reaches(index, second, first)
    ensures |a| == 1 || |b| == 1
  {
    LinksToLast(index, first, a);
    LinksToLast(index, second, b);
  }

  lemma LinksToLast(index: Index, start: BlockId, xs: seq<Item>)
    requires Valid(index) && Chain(index, start, xs)
    ensures |xs| > 1 ==> xs[|xs| - 2].block.previous == xs[|xs| - 1].block.Id()
  {
    if |xs| > 1 {
      assert Prev(index, xs[|xs| - 2]) == Some(xs[|xs| - 1]);
    }
  }

  /** When `second` is `first` or lies below it, the branches meet at `second` itself: the parent they share is
      then one below the highest common ancestor. */
  lemma AncestorCase(index: Index, first: BlockId, second: BlockId, a: seq<Item>, b: seq<Item>, i: nat, c: seq<Item>)
    requires Valid(index) && Branches(index, first, second, a, b)
    requires Chain(index, first, c) && i < |c| && c[i].block.Id() == second
    ensures b == [index[second]] && a[|a| - 1] == index[second]
    ensures a[|a| - 1].block.previous.num == second.num - 1
  {
    ChainHeights(index, first, c, i);
    ChainHeights(index, second, b, |b| - 1);
    ChainHeights(index, first, a, |a| - 1);
    assert i < |a|;
    ChainsAgree(index, first, a, c, i);
    assert a[i] == b[0] == index[second];
  }
}
