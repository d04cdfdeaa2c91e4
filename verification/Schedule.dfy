/** Slots, the shuffled witness schedule, maintenance times, and the pay of an interval. */
module Schedule {
  import opened Common
  import opened Arithmetic

  /** The chain properties that slots depend on. */
  datatype Head = Head(num: nat, time: nat, interval: nat, maintenance: bool, skipSlots: nat)

  /** The last multiple of the interval up to a time. */
  function Aligned(time: nat, interval: nat): nat
    requires interval > 0
  {
    time / interval * interval
  }

  function SlotTime(h: Head, slot: nat): nat
    requires h.interval > 0
  {
    if slot == 0 then 0
    else if h.num == 0 then h.time + slot * h.interval
    else
      Aligned(h.time, h.interval) + (slot + if h.maintenance then h.skipSlots else 0) * h.interval
  }

  function SlotAt(h: Head, when: nat): nat
    requires h.interval > 0
  {
    var first := SlotTime(h, 1);
    if when < first then 0 else (when - first) / h.interval + 1
  }

  /** Where the first slot lies. Before the first block, one interval after the genesis time; later, at the first
      multiple of the interval after the head block, or as many intervals later as are skipped for maintenance.
      There is no time for slot 0. */
  lemma FirstSlotIs(h: Head)
    requires h.interval > 0
    ensures SlotTime(h, 0) == 0
    ensures h.num == 0 ==> SlotTime(h, 1) == h.time + h.interval
    ensures h.num > 0 ==>
      var skipped := if h.maintenance then h.skipSlots * h.interval else 0;
      && SlotTime(h, 1) % h.interval == 0
      && SlotTime(h, 1) - skipped - h.interval <= h.time < SlotTime(h, 1) - skipped
  {
    var i, skip := h.interval, if h.maintenance then h.skipSlots else 0;
    DivBounds(h.time, i);
    Distribute(1, skip, i);
    Distribute(h.time / i, 1, i);
    if h.num > 0 {
      Distribute(h.time / i, 1 + skip, i);
      MultipleDiv(h.time / i + (1 + skip), i);
    }
  }

  /** From the first slot on, slots are one interval apart. */
  lemma SlotsAreEven(h: Head, slot: nat)
    requires h.interval > 0 && slot > 0
    ensures SlotTime(h, slot) == SlotTime(h, 1) + (slot - 1) * h.interval
    ensures SlotTime(h, 1) > h.time
  {
    var (d, i) := (slot - 1, h.interval);
    Distribute(1, d, i);
    var skip := if h.maintenance then h.skipSlots else 0;
    Distribute(1 + skip, d, i);
    Distribute(1, skip, i);
    assert skip * i >= 0;
    assert h.time == h.time / i * i + h.time % i;
  }

  /** The slot of a time is the one that begins at or before it, with the next one after it. */
  lemma SlotBrackets(h: Head, when: nat)
    requires h.interval > 0
    ensures SlotAt(h, when) == 0 <==> when < SlotTime(h, 1)
    ensures var s := SlotAt(h, when); s > 0 ==> SlotTime(h, s) <= when < SlotTime(h, s + 1)
  {
    var s, i := SlotAt(h, when), h.interval;
    if s > 0 {
      var past := when - SlotTime(h, 1);
      SlotsAreEven(h, s);
      SlotsAreEven(h, s + 1);
      assert past == past / i * i + past % i;
      Distribute(s - 1, 1, i);
    }
  }

  /** The two functions invert each other on slots. */
  lemma SlotRoundTrip(h: Head, slot: nat)
    requires h.interval > 0 && slot > 0
    ensures SlotAt(h, SlotTime(h, slot)) == slot
  {
    SlotsAreEven(h, slot);
    MultipleDiv(slot - 1, h.interval);
  }

  // ----- the witness schedule

  const MULTIPLIER: bv64 := 2685821657736338717

  /** The generator: time in the high half, position mixed in, then shifted and multiplied, all modulo 2^64. */
  function Random(nowHi: bv64, i: bv64): bv64 {
    var k := nowHi + i * MULTIPLIER;
    var k1 := k ^ (k >> 12);
    var k2 := k1 ^ (k1 << 25);
    var k3 := k2 ^ (k2 >> 27);
    k3 * MULTIPLIER
  }

  /** What it draws at two times and positions. */
  lemma RandomInstances()
    ensures Random(0x0000_0001_0000_0000, 0) == 0x3d04_7b0f_73df_a3a0
    ensures Random(0x5618_0000_0000_0000, 1) == 0x050a_081a_0993_d5d4
    ensures Random(0x5618_0000_0000_0000, 20) == 0x6410_0941_389d_9064
  {
  }

  function Draw(nowHi: bv64, i: nat): nat
    requires i < 0x1_0000_0000
  {
    Random(nowHi, i as bv64) as nat
  }

  /** The position, at or after i, that position i is swapped with. */
  function Partner(nowHi: bv64, i: nat, n: nat): (j: nat)
    requires i < n < 0x1_0000_0000
    ensures i <= j < n
  {
    i + Draw(nowHi, i) % (n - i)
  }

  function Swapped(s: seq<nat>, i: nat, j: nat): (r: seq<nat>)
    requires i < |s| && j < |s|
    ensures |r| == |s|
  {
    s[i := s[j]][j := s[i]]
  }

  /** The order after the first n swaps. */
  function Shuffled(s: seq<nat>, nowHi: bv64, n: nat): (r: seq<nat>)
    requires n <= |s| < 0x1_0000_0000
    ensures |r| == |s|
  {
    if n == 0 then s else Swapped(Shuffled(s, nowHi, n - 1), n - 1, Partner(nowHi, n - 1, |s|))
  }

  /** Swap every position with one at or after it. Whatever the seed, the result is a permutation. */
  method Shuffle(a: array<nat>, nowHi: bv64)
    requires a.Length < 0x1_0000_0000
    modifies a
    ensures a[..] == Shuffled(old(a[..]), nowHi, a.Length)
    ensures multiset(a[..]) == multiset(old(a[..]))
    ensures Distinct(old(a[..])) ==> Distinct(a[..])
  {
    hide Distinct, Draw;
    for i := 0 to a.Length
      invariant a[..] == Shuffled(old(a[..]), nowHi, i)
    {
      var k := Draw(nowHi, i);
      var jmax := a.Length - i;
      var j := i + k % jmax;
      assert j == Partner(nowHi, i, a.Length);
      ghost var before := a[..];
      a[i], a[j] := a[j], a[i];
      assert a[..] == Swapped(before, i, j);
    }
    ShufflePermutes(old(a[..]), nowHi, a.Length);
  }

  /** Swaps neither add nor lose a witness, and keep different ones different. */
  lemma {:induction false} ShufflePermutes(s: seq<nat>, nowHi: bv64, n: nat)
    requires n <= |s| < 0x1_0000_0000
    ensures multiset(Shuffled(s, nowHi, n)) == multiset(s)
    ensures Distinct(s) ==> Distinct(Shuffled(s, nowHi, n))
  {
    hide Distinct, Partner, Swapped;
    if n > 0 {
      ShufflePermutes(s, nowHi, n - 1);
      SwapPermutes(Shuffled(s, nowHi, n - 1), n - 1, Partner(nowHi, n - 1, |s|));
    }
  }

  lemma SwapPermutes(s: seq<nat>, i: nat, j: nat)
    requires i < |s| && j < |s|
    ensures multiset(Swapped(s, i, j)) == multiset(s)
    ensures Distinct(s) ==> Distinct(Swapped(s, i, j))
  {
  }

  /** The witness of a slot, counted from the current absolute slot. */
  function Scheduled(shuffled: seq<nat>, absoluteSlot: nat, slot: nat): nat
    requires shuffled != []
  {
    shuffled[(absoluteSlot + slot) % |shuffled|]
  }

  /** Counting absolute slots from the first shuffled witness on, they go round. */
  lemma ScheduledIs(shuffled: seq<nat>, absoluteSlot: nat, slot: nat, rounds: nat, i: nat)
    requires i < |shuffled| && absoluteSlot + slot == rounds * |shuffled| + i
    ensures Scheduled(shuffled, absoluteSlot, slot) == shuffled[i]
  {
    MultipleDiv(rounds, |shuffled|);
    ModAdd(rounds * |shuffled|, i, |shuffled|);
  }

  /** Any n consecutive slots schedule each of the n witnesses exactly once. */
  lemma RoundRobin(shuffled: seq<nat>, absoluteSlot: nat, first: nat, w: nat) returns (slot: nat)
    requires Distinct(shuffled) && w in shuffled
    ensures first <= slot < first + |shuffled| && Scheduled(shuffled, absoluteSlot, slot) == w
    ensures forall other :: first <= other < first + |shuffled| && Scheduled(shuffled, absoluteSlot, other) == w ==>
      other == slot
  {
    hide Scheduled;
    var n, p := |shuffled|, 0;
    p :| 0 <= p < n && shuffled[p] == w;
    var r := Turn(shuffled, absoluteSlot, first, 0);
    var step := if p >= r then p - r else p - r + n;
    slot := first + step;
    var _ := Turn(shuffled, absoluteSlot, first, step);
    forall other | first <= other < first + n && Scheduled(shuffled, absoluteSlot, other) == w ensures other == slot {
      var _ := Turn(shuffled, absoluteSlot, first, other - first);
    }
  }

  /** Where in the shuffled order the slots begin, and whose turn it is some steps on. */
  lemma Turn(shuffled: seq<nat>, absoluteSlot: nat, first: nat, step: nat) returns (r: nat)
    requires step < |shuffled|
    ensures r == (absoluteSlot + first) % |shuffled| < |shuffled|
    ensures Scheduled(shuffled, absoluteSlot, first + step) ==
      shuffled[if r + step < |shuffled| then r + step else r + step - |shuffled|]
  {
    r := (absoluteSlot + first) % |shuffled|;
    ModAdd(absoluteSlot + first, step, |shuffled|);
    assert absoluteSlot + (first + step) == (absoluteSlot + first) + step;
  }

  lemma ModAdd(start: nat, step: nat, n: nat)
    requires n > 0 && step < n
    ensures (start + step) % n == if start % n + step < n then start % n + step else start % n + step - n
  {
    var (q, r) := (start / n, start % n);
    assert start == q * n + r;
    if r + step < n {
      DivRange(start + step, q, n) by { Distribute(q, 1, n); }
    } else {
      DivRange(start + step, q + 1, n) by { Distribute(q, 1, n); Distribute(q + 1, 1, n); }
      Distribute(q, 1, n);
    }
  }

  /** A block in slot s moves the absolute slot by s, so the schedule runs on without a break. */
  lemma ScheduleContinues(shuffled: seq<nat>, absoluteSlot: nat, s: nat, later: nat)
    requires shuffled != []
    ensures Scheduled(shuffled, absoluteSlot + s, later) == Scheduled(shuffled, absoluteSlot, s + later)
  {
  }

  // ----- maintenance

  function NextMaintenance(next: nat, timestamp: nat, interval: nat, firstBlock: bool): nat
    requires interval > 0
  {
    if next > timestamp then next
    else if firstBlock then (timestamp / interval + 1) * interval
    else next + ((timestamp - next) / interval + 1) * interval
  }

  /** The next maintenance lies in the future, by the least number of whole intervals. */
  lemma NextMaintenanceIsLeast(next: nat, timestamp: nat, interval: nat, firstBlock: bool)
    requires interval > 0
    ensures var r := NextMaintenance(next, timestamp, interval, firstBlock);
      r > timestamp && (next <= timestamp ==> r - interval <= timestamp)
  {
    if next <= timestamp {
      var n := if firstBlock then timestamp else timestamp - next;
      assert n == n / interval * interval + n % interval;
      Distribute(n / interval, 1, interval);
    }
  }

  /** It is put off by whole intervals, from the time it was due, or after the first block from time zero. */
  lemma NextMaintenanceIs(next: nat, timestamp: nat, interval: nat, firstBlock: bool) returns (k: nat)
    requires interval > 0
    ensures var r := NextMaintenance(next, timestamp, interval, firstBlock);
      if next > timestamp then r == next
      else k > 0 && r == (if firstBlock then 0 else next) + k * interval
  {
    k := if firstBlock then timestamp / interval + 1
         else if next <= timestamp then (timestamp - next) / interval + 1 else 0;
  }

  lemma NextMaintenanceStaysAligned(next: nat, timestamp: nat, interval: nat, firstBlock: bool, block: nat)
    requires interval > 0 && block > 0 && interval % block == 0 && next % block == 0
    ensures NextMaintenance(next, timestamp, interval, firstBlock) % block == 0
  {
    if next <= timestamp {
      var k := if firstBlock then timestamp / interval + 1 else (timestamp - next) / interval + 1;
      var c := interval / block;
      assert interval == c * block;
      assert k * interval == k * c * block;
      MultipleDiv(k * c, block);
      if !firstBlock {
        var d := next / block;
        assert next == d * block;
        Distribute(d, k * c, block);
        MultipleDiv(d + k * c, block);
      }
    }
  }

  // ----- how many blocks an interval has to pay

  function BlocksToMaintenance(now: nat, next: nat, interval: nat): nat
    requires interval > 0 && next > now
  {
    (next - now + interval - 1) / interval
  }

  function SlotOf(time: nat, interval: nat): nat
    requires interval > 0
  {
    time / interval
  }

  /** The blocks paid out of one budget: each in a later slot than the one before, and only the last of them at or
      after the next maintenance time. */
  ghost predicate PaidBlocks(now: nat, next: nat, interval: nat, times: seq<nat>)
    requires interval > 0
  {
    && (times != [] ==> SlotOf(times[0], interval) > SlotOf(now, interval))
    && (forall i :: 0 < i < |times| ==> SlotOf(times[i], interval) > SlotOf(times[i - 1], interval))
    && (forall i :: 0 <= i < |times| - 1 ==> times[i] < next)
  }

  lemma {:induction false} BlockSlots(now: nat, next: nat, interval: nat, times: seq<nat>, i: nat)
    requires interval > 0 && PaidBlocks(now, next, interval, times) && i < |times|
    ensures SlotOf(times[i], interval) >= SlotOf(now, interval) + 1 + i
  {
    hide SlotOf;
    if i > 0 {
      BlockSlots(now, next, interval, times, i - 1);
    }
  }

  /** The number of slots after `now` in which a block can still come before maintenance, and the block that does it. */
  function MostBlocks(now: nat, next: nat, interval: nat): nat
    requires interval > 0 && next > now
  {
    SlotsInOrder(now, next - 1, interval);
    SlotOf(next - 1, interval) - SlotOf(now, interval) + 1
  }

  lemma SlotsInOrder(a: nat, b: nat, interval: nat)
    requires a <= b && interval > 0
    ensures SlotOf(a, interval) <= SlotOf(b, interval)
  {
    DivMono(a, b, interval);
  }

  lemma PaidBlocksBound(now: nat, next: nat, interval: nat, times: seq<nat>)
    requires interval > 0 && next > now && PaidBlocks(now, next, interval, times)
    ensures |times| <= MostBlocks(now, next, interval)
  {
    hide SlotOf;
    SlotsInOrder(now, next - 1, interval);
    if |times| > 1 {
      BlockSlots(now, next, interval, times, |times| - 2);
      SlotsInOrder(times[|times| - 2], next - 1, interval);
    }
  }

  function SlotStart(slot: nat, interval: nat): nat { slot * interval }

  /** A full house: one block at the start of every slot. */
  ghost function FullSchedule(now: nat, next: nat, interval: nat): seq<nat>
    requires interval > 0 && next > now
  {
    seq<nat>(MostBlocks(now, next, interval), (i: nat) => SlotStart(SlotOf(now, interval) + 1 + i, interval))
  }

  lemma StartIsInSlot(slot: nat, interval: nat)
    requires interval > 0
    ensures SlotOf(SlotStart(slot, interval), interval) == slot
  {
    MultipleDiv(slot, interval);
  }

  lemma StartIsEarly(slot: nat, time: nat, interval: nat)
    requires interval > 0 && slot <= SlotOf(time, interval)
    ensures SlotStart(slot, interval) <= time
  {
    MulMono(slot, time / interval, interval);
    DivBounds(time, interval);
  }

  lemma FullScheduleIsPossible(now: nat, next: nat, interval: nat)
    requires interval > 0 && next > now
    ensures PaidBlocks(now, next, interval, FullSchedule(now, next, interval))
  {
    var times, first := FullSchedule(now, next, interval), SlotOf(now, interval) + 1;
    hide SlotOf, SlotStart;
    forall i | 0 <= i < |times| ensures SlotOf(times[i], interval) == first + i {
      StartIsInSlot(first + i, interval);
    }
    forall i | 0 <= i < |times| - 1 ensures times[i] < next {
      StartIsEarly(first + i, next - 1, interval);
    }
  }

  /** The budget is divided by at least as many blocks as can come exactly when the maintenance time is a multiple of
      the block interval, or lies later within its slot than the present time does. */
  lemma BlocksFitIff(now: nat, next: nat, interval: nat)
    requires interval > 0 && next > now
    ensures MostBlocks(now, next, interval) <= BlocksToMaintenance(now, next, interval)
      <==> next % interval == 0 || next % interval > now % interval
  {
    var (a, r, b, s) := Parts(now, next, interval);
    hide SlotOf, BlocksToMaintenance;
    CeilingOf(a, r, b, s, interval);
    LastSlotBefore(b, s, interval);
    SlotsInOrder(now, next - 1, interval);
  }

  /** With three-second blocks, maintenance at second 4 and the present at second 2, the budget is planned for one
      block, but two come: at seconds 3 and 6. */
  lemma OneBlockTooMany()
    ensures PaidBlocks(2, 4, 3, [3, 6]) && BlocksToMaintenance(2, 4, 3) == 1
    ensures BudgetAfter(100, 100 / BlocksToMaintenance(2, 4, 3), 1) == 0
  {
    assert SlotOf(3, 3) == 1 && SlotOf(6, 3) == 2 && SlotOf(2, 3) == 0;
    assert BudgetAfter(100, 100, 1) == 0;
  }

  ghost function Parts(now: nat, next: nat, interval: nat): (p: (nat, nat, nat, nat))
    requires interval > 0
    ensures p.0 == SlotOf(now, interval) && p.1 == now % interval && p.3 == next % interval
    ensures now == p.0 * interval + p.1 && next == p.2 * interval + p.3 && p.1 < interval && p.3 < interval
  {
    (now / interval, now % interval, next / interval, next % interval)
  }

  lemma CeilingOf(a: nat, r: nat, b: nat, s: nat, interval: nat)
    requires interval > 0 && r < interval && s < interval && b * interval + s > a * interval + r
    ensures b >= a
    ensures BlocksToMaintenance(a * interval + r, b * interval + s, interval) == b - a + if s > r then 1 else 0
  {
    if b < a {
      MulMono(b + 1, a, interval);
      Distribute(b, 1, interval);
      assert false;
    }
    var k := b - a;
    Distribute(a, k, interval);
    Distribute(k, 1, interval);
    Distribute(k + 1, 1, interval);
    DivRange(k * interval + s - r + interval - 1, if s > r then k + 1 else k, interval);
  }

  lemma LastSlotBefore(b: nat, s: nat, interval: nat)
    requires interval > 0 && s < interval && b * interval + s > 0
    ensures SlotOf(b * interval + s - 1, interval) == if s == 0 then b - 1 else b
  {
    Distribute(b, 1, interval);
    if s == 0 {
      Distribute(b - 1, 1, interval);
      DivRange(b * interval - 1, b - 1, interval);
    } else {
      DivRange(b * interval + s - 1, b, interval);
    }
  }

  /** What is left of the budget after the first n payments. */
  function BudgetAfter(budget: nat, perBlock: nat, n: nat): nat {
    if n == 0 then budget
    else
      var before := BudgetAfter(budget, perBlock, n - 1);
      before - if perBlock <= before then perBlock else before
  }

  /** Every payment is in full while the budget lasts, and the last one takes what is left. */
  lemma {:induction false} BudgetAfterIs(budget: nat, perBlock: nat, n: nat)
    ensures BudgetAfter(budget, perBlock, n) == if n * perBlock <= budget then budget - n * perBlock else 0
  {
    if n > 0 {
      BudgetAfterIs(budget, perBlock, n - 1);
      Distribute(n - 1, 1, perBlock);
    }
  }

  lemma {:induction false} FullPay(budget: nat, blocks: nat, n: nat)
    requires blocks > 0 && n <= blocks
    ensures BudgetAfter(budget, budget / blocks, n) == budget - n * (budget / blocks) >= 0
  {
    var pay := budget / blocks;
    assert budget == pay * blocks + budget % blocks;
    MulMono(n, blocks, pay);
    if n > 0 {
      FullPay(budget, blocks, n - 1);
      Distribute(n - 1, 1, pay);
    }
  }

  /** When the maintenance time is a multiple of the block interval, every block until then, the maintenance block
      included, is paid in full. */
  lemma NoBlockIsClipped(now: nat, next: nat, interval: nat, times: seq<nat>, budget: nat, i: nat)
    requires interval > 0 && next > now && next % interval == 0 && PaidBlocks(now, next, interval, times) && i < |times|
    ensures var pay := budget / BlocksToMaintenance(now, next, interval);
      BlocksToMaintenance(now, next, interval) > 0 && BudgetAfter(budget, pay, i) >= pay
  {
    BlocksFitIff(now, next, interval);
    PaidBlocksBound(now, next, interval, times);
    var n := BlocksToMaintenance(now, next, interval);
    FullPay(budget, n, i);
    FullPay(budget, n, i + 1);
    Distribute(i, 1, budget / n);
  }
}
