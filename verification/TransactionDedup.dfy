/** The index of recent transactions that keeps a transaction from being applied twice. */
module TransactionDedup {
  import opened Common
  /** A transaction without its signatures; its id is a hash of exactly this, taken as free of collisions. */
  datatype Tx = Tx(content: nat, expiration: nat)

  datatype Block = Block(timestamp: nat, transactions: seq<Tx>)

  /** The part of the chain state that the checks read, and everything applied so far in order. */
  datatype Ledger = Ledger(index: set<Tx>, headTime: nat, headNum: nat, maxAhead: nat, applied: seq<Tx>)

  /** The duplicate and expiry checks; before the first block nothing can have expired. */
  predicate Admits(s: Ledger, tx: Tx) {
    && tx !in s.index
    && (s.headNum > 0 ==> tx.expiration <= s.headTime + s.maxAhead && s.headTime <= tx.expiration)
  }

  function ApplyTxs(s: Ledger, txs: seq<Tx>): Option<Ledger>
    decreases |txs|
  {
    if txs == [] then Some(s)
    else if !Admits(s, txs[0]) then None
    else ApplyTxs(s.(index := s.index + {txs[0]}, applied := s.applied + [txs[0]]), txs[1..])
  }

  /** The index is walked from its far end, which holds the latest expiration: everything goes, or nothing. */
  function Cleared(index: set<Tx>, now: nat): set<Tx> {
    if forall tx <- index :: tx.expiration < now then {} else index
  }

  /** All transactions, then the new head, then the clean-up; a block that throws leaves no trace. */
  function ApplyBlock(s: Ledger, b: Block): Ledger {
    var done := ApplyTxs(s, b.transactions);
    if b.timestamp <= s.headTime || done.None? then s
    else done.value.(index := Cleared(done.value.index, b.timestamp), headTime := b.timestamp, headNum := s.headNum + 1)
  }

  function Run(s: Ledger, bs: seq<Block>): Ledger
    decreases |bs|
  {
    if bs == [] then s else Run(ApplyBlock(s, bs[0]), bs[1..])
  }

  function Genesis(time: nat, maxAhead: nat): Ledger { Ledger({}, time, 0, maxAhead, []) }

  /** Whatever was applied is still in the index, or can never pass the expiry test again. */
  ghost predicate Guarded(s: Ledger) {
    && Distinct(s.applied)
    && (forall tx <- s.index :: tx in s.applied)
    && (forall tx <- s.applied :: tx in s.index || (tx.expiration < s.headTime && s.headNum > 0))
  }

  /** The transaction has not expired at the head of the chain, and does not expire too far ahead of it; before the
      first block it may expire at any time. */
  predicate InWindow(s: Ledger, tx: Tx) {
    s.headNum > 0 ==> s.headTime <= tx.expiration <= s.headTime + s.maxAhead
  }

  /** A transaction is admitted exactly if it has never been applied and lies within the expiry window. */
  lemma AdmissionExact(s: Ledger, tx: Tx)
    requires Guarded(s)
    ensures Admits(s, tx) <==> tx !in s.applied && InWindow(s, tx)
  {
  }

  /** A list of transactions is applied exactly if each is within the window and new, also among those before it. */
  lemma {:induction false} TxsExact(s: Ledger, txs: seq<Tx>)
    requires Guarded(s)
    ensures ApplyTxs(s, txs).Some? <==>
      forall i :: 0 <= i < |txs| ==> InWindow(s, txs[i]) && txs[i] !in s.applied && txs[i] !in txs[..i]
    ensures ApplyTxs(s, txs).Some? ==>
      ApplyTxs(s, txs).value == s.(index := ApplyTxs(s, txs).value.index, applied := s.applied + txs)
    decreases |txs|
  {
    if txs != [] {
      AdmissionExact(s, txs[0]);
      var t := s.(index := s.index + {txs[0]}, applied := s.applied + [txs[0]]);
      assert s.applied + [txs[0]] + txs[1..] == s.applied + txs;
      forall i | 0 < i < |txs|
        ensures txs[i] in txs[..i] <==> txs[i] == txs[0] || txs[1..][i - 1] in txs[1..][..i - 1]
      {
        assert txs[..i] == [txs[0]] + txs[1..][..i - 1];
      }
      if Admits(s, txs[0]) {
        TxsExact(t, txs[1..]);
        assert forall i :: 0 < i < |txs| ==> txs[1..][i - 1] == txs[i];
        assert forall j :: 0 <= j < |txs| - 1 ==> txs[1..][j] == txs[j + 1];
      }
    }
  }

  /** A block is applied exactly if it is later than the head and all its transactions are; the head moves to it, and
      every unexpired transaction applied by then is indexed. */
  lemma BlockExact(s: Ledger, b: Block)
    requires Guarded(s)
    ensures var t, txs := ApplyBlock(s, b), b.transactions;
      if b.timestamp > s.headTime
         && forall i :: 0 <= i < |txs| ==> InWindow(s, txs[i]) && txs[i] !in s.applied && txs[i] !in txs[..i]
      then t == Ledger(t.index, b.timestamp, s.headNum + 1, s.maxAhead, s.applied + txs)
      else t == s
  {
    TxsExact(s, b.transactions);
  }

  lemma {:induction false} TxsGuarded(s: Ledger, txs: seq<Tx>)
    requires Guarded(s)
    ensures ApplyTxs(s, txs).Some? ==> var t := ApplyTxs(s, txs).value;
      Guarded(t) && t.applied == s.applied + txs && t.headTime == s.headTime && t.headNum == s.headNum
    decreases |txs|
  {
    if txs != [] && Admits(s, txs[0]) {
      AdmissionExact(s, txs[0]);
      TxsGuarded(s.(index := s.index + {txs[0]}, applied := s.applied + [txs[0]]), txs[1..]);
      assert s.applied + [txs[0]] + txs[1..] == s.applied + txs;
    }
  }

  lemma BlockGuarded(s: Ledger, b: Block)
    requires Guarded(s)
    ensures Guarded(ApplyBlock(s, b)) && s.applied <= ApplyBlock(s, b).applied
    ensures ApplyBlock(s, b) == s || ApplyBlock(s, b).applied == s.applied + b.transactions
  {
    TxsGuarded(s, b.transactions);
  }

  /** On one chain no transaction is ever applied twice, and none leaves the index while it could still pass. */
  lemma {:induction false} RunNeverRepeats(s: Ledger, bs: seq<Block>)
    requires Guarded(s)
    ensures Guarded(Run(s, bs)) && s.applied <= Run(s, bs).applied
    decreases |bs|
  {
    if bs != [] {
      BlockGuarded(s, bs[0]);
      RunNeverRepeats(ApplyBlock(s, bs[0]), bs[1..]);
    }
  }

  lemma ChainNeverRepeats(time: nat, maxAhead: nat, bs: seq<Block>)
    ensures Distinct(Run(Genesis(time, maxAhead), bs).applied)
    ensures var s := Run(Genesis(time, maxAhead), bs);
      forall tx <- s.applied :: s.headTime <= tx.expiration ==> tx in s.index
  {
    RunNeverRepeats(Genesis(time, maxAhead), bs);
  }

  predicate IsLatest(index: set<Tx>, tx: Tx) {
    tx in index && forall other <- index :: other.expiration <= tx.expiration
  }

  lemma LatestExists(index: set<Tx>)
    requires index != {}
    ensures exists tx :: IsLatest(index, tx)
    decreases |index|
  {
    var tx :| tx in index;
    var rest := index - {tx};
    if rest == {} {
      assert index == {tx};
      assert IsLatest(index, tx);
    } else {
      LatestExists(rest);
      var latest :| IsLatest(rest, latest);
      assert index == rest + {tx};
      assert IsLatest(index, if latest.expiration < tx.expiration then tx else latest);
    }
  }

  /** Remove the last entry in ascending order of expiration for as long as it has expired. An expired entry goes
      exactly when every entry has expired: one long-lived transaction keeps them all. */
  method ClearExpired(index: set<Tx>, now: nat) returns (left: set<Tx>)
    ensures left == Cleared(index, now)
    ensures forall tx <- index :: tx.expiration < now ==>
      (tx !in left <==> forall other <- index :: other.expiration < now)
  {
    left := index;
    while left != {}
      invariant left <= index
      invariant left != index ==> forall tx <- index :: tx.expiration < now
      decreases |left|
    {
      LatestExists(left);
      var latest :| IsLatest(left, latest);
      if now <= latest.expiration {
        assert latest in index;
        return;
      }
      left := left - {latest};
    }
  }

  /** Two transactions in the first block, one of which expires before the next: the second block leaves both in the
      index. */
  lemma ExpiredEntryLingers()
    ensures var (short, long) := (Tx(1, 5), Tx(2, 50));
      var s := Run(Genesis(0, 100), [Block(1, [short, long]), Block(10, [])]);
      s.headTime == 10 && short.expiration < s.headTime && s.index == {short, long}
  {
    var (short, long) := (Tx(1, 5), Tx(2, 50));
    var s0, b1, b2 := Genesis(0, 100), Block(1, [short, long]), Block(10, []);
    var s01 := s0.(index := {short}, applied := [short]);
    assert b1.transactions[1..] == [long] && [long][1..] == [];
    assert s0.index + {short} == {short} && s0.applied + [short] == [short];
    assert ApplyTxs(s0, b1.transactions) == ApplyTxs(s01, [long]);
    assert {short} + {long} == {short, long};
    var s02 := s01.(index := s01.index + {long}, applied := s01.applied + [long]);
    assert ApplyTxs(s01, [long]) == ApplyTxs(s02, []) == Some(s02);
    var s1 := ApplyBlock(s0, b1);
    assert long in s1.index && s1.index == {short, long};
    assert [b1, b2][1..] == [b2] && [b2][1..] == [];
    assert Run(s0, [b1, b2]) == Run(s1, [b2]) == Run(ApplyBlock(s1, b2), []);
  }

  class TransactionIndex {
    var index: set<Tx>
    var headTime: nat
    var headNum: nat
    var maxAhead: nat
    ghost var applied: seq<Tx>

    ghost function State(): Ledger
      reads this
    {
      Ledger(index, headTime, headNum, maxAhead, applied)
    }

    constructor (time: nat, ahead: nat)
      ensures State() == Genesis(time, ahead)
    {
      index, headTime, headNum, maxAhead, applied := {}, time, 0, ahead, [];
    }

    /** The undo session around a block puts index and history back when a transaction throws. */
    method PushBlock(b: Block) returns (ok: bool)
      requires Guarded(State())
      modifies this
      ensures State() == ApplyBlock(old(State()), b) && Guarded(State())
      ensures ok ==> applied == old(applied) + b.transactions
      ensures !ok ==> State() == old(State())
    {
      BlockGuarded(State(), b);
      if b.timestamp <= headTime { return false; }
      var saved := index;
      ghost var start := State();
      var txs := b.transactions;
      for i := 0 to |txs|
        invariant headTime == old(headTime) && headNum == old(headNum) && maxAhead == old(maxAhead)
        invariant ApplyTxs(start, txs) == ApplyTxs(State(), txs[i..])
        invariant applied == old(applied) + txs[..i]
      {
        var tx := txs[i];
        if tx in index || (headNum > 0 && !(tx.expiration <= headTime + maxAhead && headTime <= tx.expiration)) {
          index, applied := saved, old(applied);
          return false;
        }
        index, applied := index + {tx}, applied + [tx];
        assert txs[i..][1..] == txs[i + 1..];
      }
      headTime, headNum := b.timestamp, headNum + 1;
      index := ClearExpired(index, headTime);
      return true;
    }
  }
}
