/** How two nodes find the block they share: a logarithmic synopsis of one chain, and the other's reply. */
module Sync {
  import opened Common
  import opened Blocks
  import ObjectStore
  import U = UndoLog

  /** The ids of blocks 1, 2, ... of a chain. */
  ghost predicate IsChain(ids: seq<BlockId>) {
    forall i :: 0 <= i < |ids| ==> ids[i].num == i + 1
  }

  function Log2(n: nat): nat { if n <= 1 then 0 else 1 + Log2(n / 2) }

  // ----- the synopsis

  /** The block numbers of a synopsis: from `low` in steps of half the distance to `trueHigh`, while not above
      `high`. */
  function Numbers(low: nat, high: nat, trueHigh: nat): (s: seq<nat>)
    requires low <= high <= trueHigh
    ensures s != []
    decreases high - low
  {
    var next := low + (trueHigh - low + 2) / 2;
    [low] + if next <= high then Numbers(next, high, trueHigh) else []
  }

  ghost predicate Increasing(s: seq<nat>) {
    forall i, j :: 0 <= i < j < |s| ==> s[i] < s[j]
  }

  lemma {:induction false} NumbersIncrease(low: nat, high: nat, trueHigh: nat)
    requires low <= high <= trueHigh
    ensures var s := Numbers(low, high, trueHigh);
      Increasing(s) && s[0] == low && forall n <- s :: low <= n <= high
    decreases high - low
  {
    hide Numbers;
    NumbersUnfold(low, high, trueHigh);
    var next := low + (trueHigh - low + 2) / 2;
    if next <= high {
      NumbersIncrease(next, high, trueHigh);
      IncreasingCons(low, Numbers(next, high, trueHigh));
    }
  }

  lemma IncreasingCons(n: nat, s: seq<nat>)
    requires s != [] && n < s[0] && Increasing(s)
    ensures Increasing([n] + s)
  {
  }

  /** The distance halves: the synopsis of a range has at most one entry more than the logarithm of its length. */
  lemma {:induction false} NumbersAreFew(low: nat, high: nat, trueHigh: nat)
    requires low <= high <= trueHigh
    ensures |Numbers(low, high, trueHigh)| <= Log2(trueHigh - low + 1) + 1
    decreases high - low
  {
    var next := low + (trueHigh - low + 2) / 2;
    if next <= high {
      NumbersAreFew(next, high, trueHigh);
      assert trueHigh - next + 1 == (trueHigh - low + 1) / 2;
    }
  }

  /** With nothing beyond the high block, the high block is the last entry, and the bound is met. */
  lemma {:induction false} NumbersReachHigh(low: nat, high: nat)
    requires low <= high
    ensures var s := Numbers(low, high, high); s[|s| - 1] == high && |s| == Log2(high - low + 1) + 1
    decreases high - low
  {
    hide Numbers;
    NumbersUnfold(low, high, high);
    var next := low + (high - low + 2) / 2;
    if next <= high {
      NumbersReachHigh(next, high);
      assert high - next + 1 == (high - low + 1) / 2;
    } else {
      assert high == low;
    }
  }

  /** The block the peer was last seen at: nothing, a block of our chain, or one on a fork, given by the ids of the fork
      after its last common block. */
  datatype Reference = NoReference | OnChain(num: nat) | OnFork(common: nat, ids: seq<BlockId>)

  /** The chain the synopsis speaks for. */
  function Summarized(chain: seq<BlockId>, ref: Reference): seq<BlockId>
    requires ref.OnChain? ==> ref.num <= |chain|
    requires ref.OnFork? ==> ref.common <= |chain|
  {
    match ref
    case NoReference => chain
    case OnChain(num) => chain[..num]
    case OnFork(common, ids) => chain[..common] + ids
  }

  /** The number of the last block that cannot be undone. The subtraction is in 32 bits. */
  function LastNonUndoable(head: nat, undoSize: nat): nat {
    (head - undoSize) % 0x1_0000_0000
  }

  /** It is a block of the chain exactly when there are no more undo entries than blocks. A pending session is an entry
      without a block, so on a chain whose whole history can be undone the number wraps around. */
  lemma LastNonUndoableIsOnChain(head: nat, undoSize: nat)
    requires head < 0x1_0000_0000 && undoSize < 0x1_0000_0000 - head
    ensures LastNonUndoable(head, undoSize) <= head <==> undoSize <= head
    ensures LastNonUndoable(head, undoSize) == head - undoSize + if undoSize <= head then 0 else 0x1_0000_0000
  {
  }

  /** After the first block, a pending session makes two entries for one block. */
  lemma PendingSessionWraps<V>(store: ObjectStore.Store<V>, maxSize: nat)
    requires maxSize > 0
    ensures var l := U.Step(U.Step(U.Step(U.Fresh(store, maxSize), U.Start(false)), U.Commit), U.Start(false));
      |l.stack| == 2 && LastNonUndoable(1, |l.stack|) == 0xffff_ffff
  {
  }

  /** The first block of the synopsis: the last that cannot be undone, unless the peer is behind it. */
  function Lowest(lowest: nat, ref: Reference): nat {
    var low := if ref.OnChain? && ref.num < lowest then ref.num else lowest;
    if low == 0 then 1 else low
  }

  /** None: the peer forked before the blocks that can be undone, which throws, or the whole chain is to be summarized
      and the first number lies above it. The code has no check for the latter: it indexes the empty `fork_history`,
      out of bounds, and what it then does is undefined. */
  method GetSynopsis(chain: seq<BlockId>, lowest: nat, ref: Reference, following: nat) returns (r: Option<seq<BlockId>>)
    requires ref.OnChain? ==> 0 < ref.num <= |chain|
    requires ref.OnFork? ==> ref.common < |chain| && ref.ids != []
    ensures r.None? <==> (ref.OnFork? && ref.common < lowest) || (ref.NoReference? && 0 < |chain| < lowest)
    ensures r.Some? && Summarized(chain, ref) == [] ==> r.value == []
    ensures r.Some? && Summarized(chain, ref) != [] ==>
      var ids, low := Summarized(chain, ref), Lowest(lowest, ref);
      && low <= |ids| && InRange(Numbers(low, |ids|, |ids| + following), |ids|)
      && r.value == Pick(ids, Numbers(low, |ids|, |ids| + following))
  {
    hide Numbers, Pick, InRange;
    var low, high, nonForkHigh := lowest, 0, 0;
    var history: seq<BlockId> := [];
    match ref {
      case OnChain(num) =>
        high, nonForkHigh := num, num;
        if num < low { low := num; }
      case OnFork(common, ids) =>
        history, nonForkHigh := ids, common;
        high := nonForkHigh + |history|;
        if nonForkHigh < low { return None; }
      case NoReference =>
        high, nonForkHigh := |chain|, |chain|;
        if high == 0 { return Some([]); }
        if low > high { return None; }
    }
    if low == 0 { low := 1; }
    assert chain[..nonForkHigh] + history == Summarized(chain, ref);
    var synopsis := Collect(chain, history, nonForkHigh, low, high, high + following);
    r := Some(synopsis);
  }

  /** Walk the numbers, taking ids from the chain up to the fork and from the fork's history above it. */
  method Collect(chain: seq<BlockId>, history: seq<BlockId>, nonForkHigh: nat, first: nat, high: nat, trueHigh: nat)
    returns (synopsis: seq<BlockId>)
    requires 1 <= first <= high <= trueHigh && nonForkHigh <= |chain| && high == nonForkHigh + |history|
    ensures var numbers := Numbers(first, high, trueHigh);
      InRange(numbers, high) && synopsis == Pick(chain[..nonForkHigh] + history, numbers)
  {
    hide Numbers, Pick, InRange;
    ghost var ids, done: seq<nat> := chain[..nonForkHigh] + history, [];
    synopsis := [];
    PickEmpty(ids);
    assert [] + Numbers(first, high, trueHigh) == Numbers(first, high, trueHigh);
    var low, more := first, true;
    while more
      invariant more ==> 1 <= low <= high && Numbers(first, high, trueHigh) == done + Numbers(low, high, trueHigh)
      invariant !more ==> Numbers(first, high, trueHigh) == done
      invariant InRange(done, high) && synopsis == Pick(ids, done)
      decreases more, high - low
    {
      NumbersUnfold(low, high, trueHigh);
      PickMore(ids, done, low);
      var id := if low <= nonForkHigh then chain[low - 1] else history[low - nonForkHigh - 1];
      assert id == ids[low - 1];
      synopsis := synopsis + [id];
      var next := low + (trueHigh - low + 2) / 2;
      more := next <= high;
      if more {
        Regroup(done, low, Numbers(next, high, trueHigh));
      }
      done := done + [low];
      low := next;
    }
  }

  lemma NumbersUnfold(low: nat, high: nat, trueHigh: nat)
    requires low <= high <= trueHigh
    ensures var next := low + (trueHigh - low + 2) / 2;
      Numbers(low, high, trueHigh) == if next <= high then [low] + Numbers(next, high, trueHigh) else [low]
  {
  }

  lemma Regroup(s: seq<nat>, n: nat, t: seq<nat>)
    ensures s + ([n] + t) == (s + [n]) + t
  {
  }

  lemma PickEmpty(ids: seq<BlockId>)
    ensures InRange([], |ids|) && Pick(ids, []) == []
  {
  }

  lemma PickMore(ids: seq<BlockId>, numbers: seq<nat>, n: nat)
    requires InRange(numbers, |ids|) && 1 <= n <= |ids|
    ensures InRange(numbers + [n], |ids|) && Pick(ids, numbers + [n]) == Pick(ids, numbers) + [ids[n - 1]]
  {
  }

  // ----- the reply

  /** `known` are the blocks the node has, on its chain or not. None: a number outside the chain was looked up. */
  function LooksUp(chain: seq<BlockId>, known: set<BlockId>, id: BlockId): Option<bool> {
    if id == ZERO_ID then Some(true)
    else if id !in known then Some(false)
    else if id.num == 0 || id.num > |chain| then None
    else Some(chain[id.num - 1] == id)
  }

  datatype Reply = Reply(ids: seq<BlockId>, remaining: nat)

  /** There is a reply: we have no block at all, or are asked from the first on, or find one that is shared. */
  predicate Answers(chain: seq<BlockId>, known: set<BlockId>, synopsis: seq<BlockId>) {
    chain == [] || synopsis == [] || synopsis == [ZERO_ID] || Found(chain, known, synopsis)
  }

  /** The synopsis is searched from its end for a block of our chain; from there on, our chain is listed. */
  method GetBlockIds(chain: seq<BlockId>, known: set<BlockId>, synopsis: seq<BlockId>, limit: nat)
    returns (r: Option<Reply>)
    requires IsChain(chain) && forall id <- chain :: id in known
    ensures r.Some? && chain != [] && limit > 0 ==>
      var start := Start(chain, known, synopsis);
      && r.value.ids == chain[start..Until(start, limit, |chain|)]
      && r.value.remaining == |chain| - Until(start, limit, |chain|)
    ensures r.Some? && (chain == [] || limit == 0) ==> r.value == Reply([], 0)
    ensures r.Some? <==> Answers(chain, known, synopsis)
  {
    hide Start, Found, LooksUp;
    if chain == [] { return Some(Reply([], 0)); }
    var last := 0;
    if synopsis == [] || synopsis == [ZERO_ID] {
      StartAtOne(chain, known, synopsis);
    } else {
      var found := FindShared(chain, known, synopsis);
      if found.None? { return None; }
      last := found.value;
    }
    var ids := ListFrom(chain, last, limit);
    var remaining := 0;
    if ids != [] && ids[|ids| - 1].num < |chain| {
      remaining := |chain| - ids[|ids| - 1].num;
    }
    r := Some(Reply(ids, remaining));
  }

  /** The number of the last block of the synopsis that is on our chain. None: there is none, or the lookup throws. */
  method FindShared(chain: seq<BlockId>, known: set<BlockId>, synopsis: seq<BlockId>) returns (num: Option<nat>)
    ensures num.Some? <==> Found(chain, known, synopsis)
    ensures num.Some? ==> num.value <= |chain| && Start(chain, known, synopsis) == FromNumber(num.value)
  {
    var i := |synopsis|;
    assert synopsis[..i] == synopsis;
    while i > 0
      invariant 0 <= i <= |synopsis|
      invariant Found(chain, known, synopsis) == Found(chain, known, synopsis[..i])
      invariant Start(chain, known, synopsis) == Start(chain, known, synopsis[..i])
    {
      var id := synopsis[i - 1];
      var looked := LooksUp(chain, known, id);
      assert synopsis[..i][..i - 1] == synopsis[..i - 1];
      if looked.None? { return None; }
      if looked.value { return Some(id.num); }
      i := i - 1;
    }
    num := None;
  }

  /** List the chain from that number on; number 0 stands for a place before the first block. */
  method ListFrom(chain: seq<BlockId>, last: nat, limit: nat) returns (result: seq<BlockId>)
    requires last <= |chain| && chain != []
    ensures var start := FromNumber(last); result == chain[start..Until(start, limit, |chain|)]
  {
    result := [];
    var num := last;
    ghost var start := FromNumber(last);
    while num <= |chain| && |result| < limit
      invariant last <= num <= |chain| + 1 && |result| <= limit
      invariant num == 0 ==> result == []
      invariant num > 0 ==> start <= num - 1 && |result| == num - 1 - start && result == chain[start..num - 1]
      decreases |chain| + 1 - num
    {
      if num > 0 {
        SliceMore(chain, start, num - 1);
        result := result + [chain[num - 1]];
      }
      num := num + 1;
    }
  }

  /** Where in the chain the block with that number is, or the first block. */
  function FromNumber(num: nat): nat { if num == 0 then 0 else num - 1 }

  lemma SliceMore(ids: seq<BlockId>, from: nat, to: nat)
    requires from <= to < |ids|
    ensures ids[from..to + 1] == ids[from..to] + [ids[to]]
  {
  }

  /** Where the reply begins: at the last synopsis block that is on our chain, or at block 1. */
  function Start(chain: seq<BlockId>, known: set<BlockId>, synopsis: seq<BlockId>): (start: nat)
    ensures start == 0 || start < |chain|
  {
    if synopsis == [] then 0
    else
      var id := synopsis[|synopsis| - 1];
      if LooksUp(chain, known, id) == Some(true) then FromNumber(id.num)
      else Start(chain, known, synopsis[..|synopsis| - 1])
  }

  /** The search ends at a block of our chain, and no lookup outside the chain comes before it. */
  predicate Found(chain: seq<BlockId>, known: set<BlockId>, synopsis: seq<BlockId>) {
    synopsis != [] &&
    var id := synopsis[|synopsis| - 1];
    LooksUp(chain, known, id) == Some(true) ||
    (LooksUp(chain, known, id) == Some(false) && Found(chain, known, synopsis[..|synopsis| - 1]))
  }

  function Until(start: nat, limit: nat, length: nat): nat {
    if start + limit <= length then start + limit else length
  }

  lemma StartAtOne(chain: seq<BlockId>, known: set<BlockId>, synopsis: seq<BlockId>)
    requires synopsis == [] || synopsis == [ZERO_ID]
    ensures Start(chain, known, synopsis) == 0
  {
  }

  // ----- both together

  /** Two chains agree up to block `shared` and nowhere above it. */
  ghost predicate Diverge(ours: seq<BlockId>, theirs: seq<BlockId>, shared: nat) {
    && shared <= |ours| && shared <= |theirs|
    && ours[..shared] == theirs[..shared]
    && forall i :: shared <= i < |ours| && i < |theirs| ==> ours[i] != theirs[i]
  }

  /** How many of the numbers, from the front, are at most `shared`. */
  function CountShared(numbers: seq<nat>, shared: nat): (c: nat)
    ensures c <= |numbers|
  {
    if numbers == [] then 0
    else if numbers[|numbers| - 1] <= shared then |numbers|
    else CountShared(numbers[..|numbers| - 1], shared)
  }

  /** In an increasing sequence these are exactly the numbers up to `shared`, so the last of them is the highest. */
  lemma {:induction false} CountSharedIsHighest(numbers: seq<nat>, shared: nat, i: nat)
    requires Increasing(numbers) && i < |numbers|
    ensures numbers[i] <= shared <==> i < CountShared(numbers, shared)
    decreases |numbers|
  {
    var last := |numbers| - 1;
    if numbers[last] > shared && i < last {
      CountSharedIsHighest(numbers[..last], shared, i);
    }
  }

  /** A block that we have, but whose number lies above our chain: looking it up throws. */
  predicate Beyond(ours: seq<BlockId>, known: set<BlockId>, id: BlockId) {
    id in known && id.num > |ours|
  }

  /** The search comes to the last number that is shared, unless it looks up a block beyond the chain before. */
  lemma {:induction false} ReplyStart(
    ours: seq<BlockId>, theirs: seq<BlockId>, known: set<BlockId>, shared: nat, numbers: seq<nat>)
    requires IsChain(ours) && IsChain(theirs) && Diverge(ours, theirs, shared) && InRange(numbers, |theirs|)
    requires forall id <- ours :: id in known
    ensures var synopsis, c := Pick(theirs, numbers), CountShared(numbers, shared);
      && (Found(ours, known, synopsis) <==>
            c > 0 && forall i :: c <= i < |numbers| ==> !Beyond(ours, known, synopsis[i]))
      && (c > 0 ==> Start(ours, known, synopsis) + 1 == numbers[c - 1])
    decreases |numbers|
  {
    hide IsChain, Diverge, LooksUp, Beyond;
    if numbers != [] {
      var n, rest := numbers[|numbers| - 1], numbers[..|numbers| - 1];
      PickInit(theirs, numbers);
      LookUpTheirs(ours, theirs, known, shared, n);
      ReplyStart(ours, theirs, known, shared, rest);
      ghost var synopsis, c := Pick(theirs, numbers), CountShared(numbers, shared);
      assert synopsis[|numbers| - 1] == theirs[n - 1];
      assert forall i :: 0 <= i < |rest| ==> synopsis[i] == Pick(theirs, rest)[i];
    }
  }

  /** For every pair of chains: a synopsis of theirs is answered exactly when it names a shared block and none that we
      have beyond our own chain, and the answer starts at the highest shared block named. */
  lemma ReplyStartsAtHighestShared(
    ours: seq<BlockId>, theirs: seq<BlockId>, known: set<BlockId>, shared: nat, numbers: seq<nat>)
    requires IsChain(ours) && IsChain(theirs) && Diverge(ours, theirs, shared) && InRange(numbers, |theirs|)
    requires Increasing(numbers) && ours != [] && numbers != []
    requires forall id <- ours :: id in known
    ensures var synopsis := Pick(theirs, numbers);
      && (Answers(ours, known, synopsis) <==>
            && (exists n :: n in numbers && n <= shared)
            && (forall id <- synopsis :: !Beyond(ours, known, id)))
      && (Answers(ours, known, synopsis) ==>
            var first := Start(ours, known, synopsis) + 1;
            first in numbers && first <= shared && forall n <- numbers :: n <= shared ==> n <= first)
  {
    hide Found, Start;
    ReplyStart(ours, theirs, known, shared, numbers);
    var synopsis, c := Pick(theirs, numbers), CountShared(numbers, shared);
    forall i | 0 <= i < |numbers| ensures numbers[i] <= shared <==> i < c {
      CountSharedIsHighest(numbers, shared, i);
    }
    assert forall i :: 0 <= i < c ==> !Beyond(ours, known, synopsis[i]);
    assert synopsis[0].num != 0;
    if c > 0 {
      assert numbers[c - 1] in numbers;
    }
  }

  /** A synopsis from `low` on is answered exactly when the chains agree up to there at least, and none of the blocks in
      it is known beyond our own chain. */
  lemma SynopsisIsAnswered(
    ours: seq<BlockId>, theirs: seq<BlockId>, known: set<BlockId>, shared: nat, low: nat, following: nat)
    requires IsChain(ours) && IsChain(theirs) && Diverge(ours, theirs, shared) && 1 <= low <= |theirs| && ours != []
    requires forall id <- ours :: id in known
    ensures InRange(Numbers(low, |theirs|, |theirs| + following), |theirs|)
    ensures var synopsis := Pick(theirs, Numbers(low, |theirs|, |theirs| + following));
      Answers(ours, known, synopsis) <==> low <= shared && forall id <- synopsis :: !Beyond(ours, known, id)
  {
    hide Found, Start, Pick, Answers, Beyond;
    NumbersIncrease(low, |theirs|, |theirs| + following);
    var numbers := Numbers(low, |theirs|, |theirs| + following);
    forall i | 0 <= i < |numbers| ensures low <= numbers[i] <= |theirs| { assert numbers[i] in numbers; }
    assert low in numbers;
    ReplyStartsAtHighestShared(ours, theirs, known, shared, numbers);
  }

  /** An instance that is not answered: block 1 is shared, but the second one named is on a fork that we have and that
      is longer than our chain. */
  lemma LongerForkIsNotAnswered(a: BlockId, b: BlockId)
    requires a.num == 1 && b.num == 2
    ensures InRange([1, 2], 2) && Diverge([a], [a, b], 1) && !Answers([a], {a, b}, Pick([a, b], [1, 2]))
  {
    var synopsis := Pick([a, b], [1, 2]);
    assert synopsis == [a, b];
    assert LooksUp([a], {a, b}, b).None?;
  }

  /** Looking up the n-th block of theirs. */
  lemma LookUpTheirs(ours: seq<BlockId>, theirs: seq<BlockId>, known: set<BlockId>, shared: nat, n: nat)
    requires IsChain(ours) && IsChain(theirs) && Diverge(ours, theirs, shared) && 1 <= n <= |theirs|
    requires forall id <- ours :: id in known
    ensures theirs[n - 1].num == n
    ensures LooksUp(ours, known, theirs[n - 1]) ==
      if n <= shared then Some(true) else if Beyond(ours, known, theirs[n - 1]) then None else Some(false)
  {
    if n <= shared {
      assert ours[..shared][n - 1] == theirs[..shared][n - 1];
      assert ours[n - 1] in ours;
    }
  }

  predicate InRange(numbers: seq<nat>, high: nat) {
    forall i :: 0 <= i < |numbers| ==> 1 <= numbers[i] <= high
  }

  function Pick(ids: seq<BlockId>, numbers: seq<nat>): seq<BlockId>
    requires InRange(numbers, |ids|)
  {
    seq(|numbers|, i requires 0 <= i < |numbers| => ids[numbers[i] - 1])
  }

  lemma PickInit(ids: seq<BlockId>, numbers: seq<nat>)
    requires numbers != [] && InRange(numbers, |ids|)
    ensures Pick(ids, numbers)[..|numbers| - 1] == Pick(ids, numbers[..|numbers| - 1])
  {
  }
}
