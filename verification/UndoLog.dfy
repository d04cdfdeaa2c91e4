/** The undo database as a state machine, and the plain stack of snapshots it stands for. */
module UndoLog {
  import opened ObjectStore
  import opened UndoDiff

  datatype Log<V> = Log(store: Store<V>, stack: seq<Diff<V>>, active: nat, disabled: bool, maxSize: nat)

  datatype Op<V> =
    | Create(index: IndexKey, value: V)
    | Modify(id: ObjectId, value: V)
    | Remove(id: ObjectId)
    | Start(force: bool)
    | Undo
    | MergeSession
    | Commit
    | PopCommit
    | SetMaxSize(size: nat)

  function Last<T>(s: seq<T>): T requires s != [] { s[|s| - 1] }
  function Init<T>(s: seq<T>): seq<T> requires s != [] { s[..|s| - 1] }

  /** The first hook on an empty stack opens an entry that belongs to no session. */
  function OrOne<T>(s: seq<T>, first: T): seq<T> { if s == [] then [first] else s }

  /** Oldest entries go first. */
  function Evict<T>(s: seq<T>, maxSize: nat): seq<T> { if |s| > maxSize then s[|s| - maxSize..] else s }

  function Recorded<V>(l: Log<V>, record: Diff<V> -> Diff<V>): seq<Diff<V>> {
    if l.disabled then l.stack
    else var stack := OrOne(l.stack, Empty()); Init(stack) + [record(Last(stack))]
  }

  /** When the call throws; a throwing call leaves the log alone. */
  predicate Accepts<V>(l: Log<V>, op: Op<V>) {
    match op
    case Create(index, _) => index in l.store.nextIds
    case Modify(id, _) => id in l.store.objects
    case Remove(id) => id in l.store.objects
    case Start(force) => force || !l.disabled
    case Undo => !l.disabled && l.active > 0 && l.stack != []
    case MergeSession => l.active > 0 && |l.stack| >= 2
    case Commit => l.active > 0
    case PopCommit => l.active == 0 && l.stack != []
    case SetMaxSize(_) => true
  }

  function Step<V>(l: Log<V>, op: Op<V>): Log<V> {
    if !Accepts(l, op) then l else
    match op
    case Create(index, value) =>
      var id := NextId(l.store, index);
      l.(store := Created(l.store, index, value), stack := Recorded(l, d => RecordCreate(d, id)))
    case Modify(id, value) =>
      var was := l.store.objects[id];
      l.(store := Modified(l.store, id, value), stack := Recorded(l, d => RecordModify(d, id, was)))
    case Remove(id) =>
      var was := l.store.objects[id];
      l.(store := Removed(l.store, id), stack := Recorded(l, d => RecordRemove(d, id, was)))
    case Start(force) =>
      l.(stack := Evict(l.stack, l.maxSize) + [Empty()], active := l.active + 1, disabled := false)
    case Undo =>
      l.(store := Revert(Last(l.stack), l.store), stack := OrOne(Init(l.stack), Empty()), active := l.active - 1)
    case MergeSession =>
      var n := |l.stack|;
      l.(stack := l.stack[..n - 2] + [Merge(l.stack[n - 2], l.stack[n - 1])], active := l.active - 1)
    case Commit => l.(active := l.active - 1)
    case PopCommit => l.(store := Revert(Last(l.stack), l.store), stack := Init(l.stack), disabled := false)
    case SetMaxSize(size) => l.(maxSize := size)
  }

  function Run<V>(l: Log<V>, ops: seq<Op<V>>): Log<V>
    decreases |ops|
  {
    if ops == [] then l else Run(Step(l, ops[0]), ops[1..])
  }

  // ----- the simple form: a current state over a stack of complete copies

  datatype Snapshots<V> = Snapshots(current: Store<V>, saved: seq<Store<V>>, active: nat, maxSize: nat)

  ghost predicate SpecAccepts<V>(s: Snapshots<V>, op: Op<V>) {
    match op
    case Create(index, _) => index in s.current.nextIds
    case Modify(id, _) => id in s.current.objects
    case Remove(id) => id in s.current.objects
    case Start(_) => true
    case Undo => s.active > 0
    case MergeSession => s.active > 0 && |s.saved| >= 2
    case Commit => s.active > 0
    case PopCommit => s.active == 0 && s.saved != []
    case SetMaxSize(_) => true
  }

  /** A mutation leaves all copies alone; leaving a session takes the last copy back or forgets it. */
  ghost function SpecStep<V>(s: Snapshots<V>, op: Op<V>): Snapshots<V>
    requires s.active > 0 ==> s.saved != []
  {
    if !SpecAccepts(s, op) then s else
    var touched := s.(saved := OrOne(s.saved, s.current));
    match op
    case Create(index, value) => touched.(current := Created(s.current, index, value))
    case Modify(id, value) => touched.(current := Modified(s.current, id, value))
    case Remove(id) => touched.(current := Removed(s.current, id))
    case Start(_) => s.(saved := Evict(s.saved, s.maxSize) + [s.current], active := s.active + 1)
    case Undo =>
      var back := Last(s.saved);
      s.(current := back, saved := OrOne(Init(s.saved), back), active := s.active - 1)
    case MergeSession => s.(saved := Init(s.saved), active := s.active - 1)
    case Commit => s.(active := s.active - 1)
    case PopCommit => s.(current := Last(s.saved), saved := Init(s.saved))
    case SetMaxSize(size) => s.(maxSize := size)
  }

  ghost function SpecRun<V>(s: Snapshots<V>, ops: seq<Op<V>>): Snapshots<V>
    requires s.active > 0 ==> s.saved != []
    decreases |ops|
  {
    if ops == [] then s else SpecRun(SpecStep(s, ops[0]), ops[1..])
  }

  /** The state entry `i` was recorded against. */
  ghost function After<V>(current: Store<V>, saved: seq<Store<V>>, i: nat): Store<V>
    requires i < |saved|
  {
    if i + 1 < |saved| then saved[i + 1] else current
  }

  /** Entry i reverts copy i+1 to copy i. */
  ghost predicate Chained<V>(stack: seq<Diff<V>>, current: Store<V>, saved: seq<Store<V>>) {
    && |stack| == |saved|
    && WellFormed(current)
    && forall i :: 0 <= i < |stack| ==> Reverts(stack[i], After(current, saved, i), saved[i])
  }

  ghost predicate Refines<V>(l: Log<V>, s: Snapshots<V>) {
    && !l.disabled
    && l.store == s.current && l.active == s.active && l.maxSize == s.maxSize
    && (s.active > 0 ==> s.saved != [])
    && Chained(l.stack, s.current, s.saved)
  }

  lemma OpenedChain<V>(stack: seq<Diff<V>>, current: Store<V>, saved: seq<Store<V>>)
    requires Chained(stack, current, saved)
    ensures Chained(OrOne(stack, Empty()), current, OrOne(saved, current))
  {
    EmptyReverts(current);
  }

  lemma TopChanged<V>(stack: seq<Diff<V>>, current: Store<V>, saved: seq<Store<V>>, top: Diff<V>, next: Store<V>)
    requires Chained(stack, current, saved) && stack != []
    requires Reverts(top, next, Last(saved))
    ensures Chained(Init(stack) + [top], next, saved)
  {
    var stack' := Init(stack) + [top];
    forall i | 0 <= i < |stack'| ensures Reverts(stack'[i], After(next, saved, i), saved[i]) {
      assert Reverts(stack[i], After(current, saved, i), saved[i]);
    }
  }

  lemma SuffixChained<V>(stack: seq<Diff<V>>, current: Store<V>, saved: seq<Store<V>>, from: nat)
    requires Chained(stack, current, saved) && from <= |stack|
    ensures Chained(stack[from..], current, saved[from..])
  {
    forall i | 0 <= i < |stack| - from
      ensures Reverts(stack[from..][i], After(current, saved[from..], i), saved[from..][i])
    {
      assert After(current, saved[from..], i) == After(current, saved, from + i);
    }
  }

  lemma PushedChain<V>(stack: seq<Diff<V>>, current: Store<V>, saved: seq<Store<V>>)
    requires Chained(stack, current, saved)
    ensures Chained(stack + [Empty()], current, saved + [current])
  {
    EmptyReverts(current);
    var stack', saved' := stack + [Empty()], saved + [current];
    forall i | 0 <= i < |stack'| ensures Reverts(stack'[i], After(current, saved', i), saved'[i]) {
      if i < |stack| {
        assert Reverts(stack[i], After(current, saved, i), saved[i]);
      }
    }
  }

  lemma PoppedChain<V>(stack: seq<Diff<V>>, current: Store<V>, saved: seq<Store<V>>)
    requires Chained(stack, current, saved) && stack != []
    ensures Revert(Last(stack), current) == Last(saved)
    ensures Chained(Init(stack), Last(saved), Init(saved))
  {
    var n := |stack|;
    assert Reverts(stack[n - 1], After(current, saved, n - 1), saved[n - 1]);
    RevertRestores(Last(stack), current, Last(saved));
    forall i | 0 <= i < n - 1 ensures Reverts(Init(stack)[i], After(Last(saved), Init(saved), i), Init(saved)[i]) {
      assert Reverts(stack[i], After(current, saved, i), saved[i]);
    }
  }

  lemma MergedChain<V>(stack: seq<Diff<V>>, current: Store<V>, saved: seq<Store<V>>)
    requires Chained(stack, current, saved) && |stack| >= 2
    ensures var n := |stack|;
      Chained(stack[..n - 2] + [Merge(stack[n - 2], stack[n - 1])], current, Init(saved))
  {
    var n := |stack|;
    assert Reverts(stack[n - 1], After(current, saved, n - 1), saved[n - 1]);
    assert Reverts(stack[n - 2], After(current, saved, n - 2), saved[n - 2]);
    MergeReverts(stack[n - 2], stack[n - 1], current, saved[n - 1], saved[n - 2]);
    var stack' := stack[..n - 2] + [Merge(stack[n - 2], stack[n - 1])];
    forall i | 0 <= i < n - 1 ensures Reverts(stack'[i], After(current, Init(saved), i), Init(saved)[i]) {
      assert Reverts(stack[i], After(current, saved, i), saved[i]);
    }
  }

  lemma MutationRefines<V>(l: Log<V>, s: Snapshots<V>, op: Op<V>)
    requires Refines(l, s) && Accepts(l, op) && (op.Create? || op.Modify? || op.Remove?)
    ensures Refines(Step(l, op), SpecStep(s, op))
  {
    hide Reverts, RecordCreate, RecordModify, RecordRemove, Created, Modified, Removed;
    OpenedChain(l.stack, s.current, s.saved);
    var stack, saved := OrOne(l.stack, Empty()), OrOne(s.saved, s.current);
    var l', s' := Step(l, op), SpecStep(s, op);
    var n := |stack|;
    assert Reverts(stack[n - 1], After(s.current, saved, n - 1), saved[n - 1]);
    match op
    case Create(index, value) => CreateReverts(Last(stack), l.store, Last(saved), index, value);
    case Modify(id, value) => ModifyReverts(Last(stack), l.store, Last(saved), id, value);
    case Remove(id) => RemoveReverts(Last(stack), l.store, Last(saved), id);
    TopChanged(stack, s.current, saved, Last(l'.stack), s'.current);
    assert l'.stack == Init(stack) + [Last(l'.stack)];
  }

  /** One call: both forms accept it or both refuse it, and they stay in step. */
  lemma StepRefines<V>(l: Log<V>, s: Snapshots<V>, op: Op<V>)
    requires Refines(l, s)
    ensures Accepts(l, op) <==> SpecAccepts(s, op)
    ensures Refines(Step(l, op), SpecStep(s, op))
  {
    if Accepts(l, op) {
      hide Step, SpecStep;
      match op
      case Create(_, _) => MutationRefines(l, s, op);
      case Modify(_, _) => MutationRefines(l, s, op);
      case Remove(_) => MutationRefines(l, s, op);
      case Start(_) => StartRefines(l, s, op);
      case Undo => LeaveRefines(l, s, op);
      case MergeSession => LeaveRefines(l, s, op);
      case Commit => CountRefines(l, s, op);
      case PopCommit => LeaveRefines(l, s, op);
      case SetMaxSize(_) => CountRefines(l, s, op);
    } else {
      hide Chained, Step, SpecStep;
      assert Step(l, op) == l by { RefusedStep(l, op); }
      assert SpecStep(s, op) == s by { RefusedSpecStep(s, op); }
    }
  }

  lemma RefusedStep<V>(l: Log<V>, op: Op<V>)
    requires !Accepts(l, op)
    ensures Step(l, op) == l
  {
    hide Accepts;
  }

  lemma RefusedSpecStep<V>(s: Snapshots<V>, op: Op<V>)
    requires (s.active > 0 ==> s.saved != []) && !SpecAccepts(s, op)
    ensures SpecStep(s, op) == s
  {
    hide SpecAccepts;
  }

  lemma {:induction false} StartRefines<V>(l: Log<V>, s: Snapshots<V>, op: Op<V>)
    requires Refines(l, s) && op.Start?
    ensures Refines(Step(l, op), SpecStep(s, op))
  {
    hide Chained;
    assert |l.stack| == |s.saved| by { SameHeight(l, s); }
    if |l.stack| > l.maxSize {
      SuffixChained(l.stack, s.current, s.saved, |l.stack| - l.maxSize);
    }
    PushedChain(Evict(l.stack, l.maxSize), s.current, Evict(s.saved, l.maxSize));
  }

  lemma SameHeight<V>(l: Log<V>, s: Snapshots<V>)
    requires Refines(l, s)
    ensures |l.stack| == |s.saved|
  {
  }

  lemma {:induction false} LeaveRefines<V>(l: Log<V>, s: Snapshots<V>, op: Op<V>)
    requires Refines(l, s) && Accepts(l, op) && (op.Undo? || op.MergeSession? || op.PopCommit?)
    ensures Refines(Step(l, op), SpecStep(s, op))
  {
    hide Chained, Merge, Revert;
    assert |l.stack| == |s.saved| by { SameHeight(l, s); }
    match op
    case Undo =>
      PoppedChain(l.stack, s.current, s.saved);
      OpenedChain(Init(l.stack), Last(s.saved), Init(s.saved));
    case MergeSession => MergedChain(l.stack, s.current, s.saved);
    case PopCommit => PoppedChain(l.stack, s.current, s.saved);
  }

  lemma {:induction false} CountRefines<V>(l: Log<V>, s: Snapshots<V>, op: Op<V>)
    requires Refines(l, s) && (op.Commit? || op.SetMaxSize?)
    ensures Refines(Step(l, op), SpecStep(s, op))
  {
    hide Chained;
  }

  /** Whole runs: the stack of diffs is the stack of snapshots. */
  lemma {:induction false} RunRefines<V>(l: Log<V>, s: Snapshots<V>, ops: seq<Op<V>>)
    requires Refines(l, s)
    ensures Refines(Run(l, ops), SpecRun(s, ops))
    decreases |ops|
  {
    if ops != [] {
      StepRefines(l, s, ops[0]);
      RunRefines(Step(l, ops[0]), SpecStep(s, ops[0]), ops[1..]);
    }
  }

  /** A database with recording on and nothing recorded yet. */
  function Fresh<V>(store: Store<V>, maxSize: nat): Log<V> { Log(store, [], 0, false, maxSize) }

  ghost predicate Reachable<V(!new)>(l: Log<V>) {
    exists store: Store<V>, maxSize, ops :: WellFormed(store) && Run(Fresh(store, maxSize), ops) == l
  }

  lemma ReachableRefines<V(!new)>(l: Log<V>) returns (s: Snapshots<V>)
    requires Reachable(l)
    ensures Refines(l, s)
  {
    var store: Store<V>, maxSize, ops :| WellFormed(store) && Run(Fresh(store, maxSize), ops) == l;
    RunRefines(Fresh(store, maxSize), Snapshots(store, [], 0, maxSize), ops);
    s := SpecRun(Snapshots(store, [], 0, maxSize), ops);
  }

  lemma MergeThenUndoStores<V>(l: Log<V>, s: Snapshots<V>)
    requires Refines(l, s) && l.active >= 2 && |l.stack| >= 2
    ensures Step(l, MergeSession).stack != []
    ensures Step(Step(l, MergeSession), Undo).store == Step(Step(l, Undo), Undo).store
  {
    StepRefines(l, s, MergeSession);
    StepRefines(Step(l, MergeSession), SpecStep(s, MergeSession), Undo);
    StepRefines(l, s, Undo);
    StepRefines(Step(l, Undo), SpecStep(s, Undo), Undo);
    hide Merge, Revert, Step;
  }

  /** The rest of the log does not depend on the merged diff at all. */
  lemma MergeThenUndoRest<V>(l: Log<V>)
    requires !l.disabled && l.active >= 2 && |l.stack| >= 2
    ensures var once, twice := Step(Step(l, MergeSession), Undo), Step(Step(l, Undo), Undo);
      once == twice.(store := once.store)
  {
    hide Merge, Revert;
    var n := |l.stack|;
    var below, merged := l.stack[..n - 2], Merge(l.stack[n - 2], l.stack[n - 1]);
    assert Init(below + [merged]) == below == Init(Init(l.stack));
  }

  lemma MergeStaysInTable<V>(l: Log<V>, s: Snapshots<V>, id: ObjectId)
    requires Refines(l, s) && l.active >= 2 && |l.stack| >= 2
    ensures Disjoint(Last(Step(l, MergeSession).stack), id)
    ensures Compose(EntryOf(l.stack[|l.stack| - 2], id), EntryOf(Last(l.stack), id)).Cell?
  {
    var n := |l.stack|;
    assert Reverts(l.stack[n - 1], After(s.current, s.saved, n - 1), s.saved[n - 1]);
    assert Reverts(l.stack[n - 2], After(s.current, s.saved, n - 2), s.saved[n - 2]);
    hide Merge, Refines, Reverts, Disjoint;
    MergeFollowsTable(l.stack[n - 2], l.stack[n - 1], s.current, s.saved[n - 1], s.saved[n - 2], id);
  }

  lemma NotDisabled<V>(l: Log<V>, s: Snapshots<V>)
    requires Refines(l, s)
    ensures !l.disabled
  {
  }

  /** Undoing once after a merge is undoing twice without it, on every stack a run can build. */
  lemma MergeThenUndo<V(!new)>(l: Log<V>)
    requires Reachable(l) && l.active >= 2 && |l.stack| >= 2
    ensures var once, twice := Step(Step(l, MergeSession), Undo), Step(Step(l, Undo), Undo);
      once == twice
    ensures forall id :: Disjoint(Last(Step(l, MergeSession).stack), id)
    ensures forall id :: Compose(EntryOf(l.stack[|l.stack| - 2], id), EntryOf(Last(l.stack), id)).Cell?
  {
    hide *;
    var s := ReachableRefines(l);
    MergeThenUndoStores(l, s);
    assert !l.disabled by { NotDisabled(l, s); }
    MergeThenUndoRest(l);
    forall id
      ensures Disjoint(Last(Step(l, MergeSession).stack), id)
      ensures Compose(EntryOf(l.stack[|l.stack| - 2], id), EntryOf(Last(l.stack), id)).Cell?
    {
      MergeStaysInTable(l, s, id);
    }
  }

  // ----- which snapshot a session gets back

  /** The stack as the callers think of it: nothing is ever evicted. `kept` are the copies they rely on. */
  datatype View<V> = View(current: Store<V>, kept: seq<Store<V>>, active: nat)

  ghost function ViewStep<V>(v: View<V>, op: Op<V>): View<V> {
    match op
    case Create(index, value) =>
      if index in v.current.nextIds then v.(current := Created(v.current, index, value)) else v
    case Modify(id, value) => if id in v.current.objects then v.(current := Modified(v.current, id, value)) else v
    case Remove(id) => if id in v.current.objects then v.(current := Removed(v.current, id)) else v
    case Start(_) => View(v.current, v.kept + [v.current], v.active + 1)
    case Undo => if v.active > 0 && v.kept != [] then View(Last(v.kept), Init(v.kept), v.active - 1) else v
    case MergeSession => if v.active > 0 && v.kept != [] then View(v.current, Init(v.kept), v.active - 1) else v
    case Commit => if v.active > 0 then v.(active := v.active - 1) else v
    case PopCommit => if v.active == 0 && v.kept != [] then View(Last(v.kept), Init(v.kept), 0) else v
    case SetMaxSize(_) => v
  }

  ghost function ViewRun<V>(v: View<V>, ops: seq<Op<V>>): View<V>
    decreases |ops|
  {
    if ops == [] then v else ViewRun(ViewStep(v, ops[0]), ops[1..])
  }

  /** The newest snapshots are exactly the copies the callers rely on, at least one for every open session. */
  ghost predicate Backed<V>(s: Snapshots<V>, v: View<V>) {
    && s.current == v.current && s.active == v.active <= |v.kept| <= |s.saved|
    && s.saved[|s.saved| - |v.kept|..] == v.kept
  }

  /** Starting keeps every copy exactly when the stack has room for them. */
  lemma StartKeepsBacking<V>(s: Snapshots<V>, v: View<V>, force: bool)
    requires Backed(s, v)
    ensures Backed(SpecStep(s, Start(force)), ViewStep(v, Start(force))) <==> |v.kept| <= s.maxSize
  {
    var remaining := Evict(s.saved, s.maxSize);
    if |v.kept| <= s.maxSize {
      assert remaining[|remaining| - |v.kept|..] == s.saved[|s.saved| - |v.kept|..];
      assert (remaining + [s.current])[|remaining| - |v.kept|..] == v.kept + [s.current];
    }
  }

  /** Giving up the newest copy, by undo, merge or pop, leaves the others where they are. */
  lemma LeaveKeepsBacking<V>(s: Snapshots<V>, v: View<V>)
    requires Backed(s, v) && v.kept != []
    ensures Init(s.saved)[|s.saved| - |v.kept|..] == Init(v.kept)
    ensures Last(s.saved) == Last(v.kept)
  {
    assert s.saved == s.saved[..|s.saved| - |v.kept|] + v.kept;
  }

  /** A call that cannot cost a caller its copy: room to start, something to pop, two entries to merge. */
  ghost predicate Disciplined<V>(v: View<V>, maxSize: nat, op: Op<V>) {
    && (op.Start? ==> |v.kept| <= maxSize)
    && (op.PopCommit? ==> v.kept != [])
    && (op.MergeSession? ==> |v.kept| >= 2)
  }

  lemma StepKeepsBacking<V>(s: Snapshots<V>, v: View<V>, op: Op<V>)
    requires Backed(s, v) && Disciplined(v, s.maxSize, op)
    ensures Backed(SpecStep(s, op), ViewStep(v, op))
  {
    hide Backed, SpecStep, ViewStep;
    match op
    case Create(_, _) => MutationKeepsBacking(s, v, op);
    case Modify(_, _) => MutationKeepsBacking(s, v, op);
    case Remove(_) => MutationKeepsBacking(s, v, op);
    case Start(force) => StartKeepsBacking(s, v, force);
    case Undo => ExitKeepsBacking(s, v, op);
    case MergeSession => ExitKeepsBacking(s, v, op);
    case Commit => CountKeepsBacking(s, v, op);
    case PopCommit => ExitKeepsBacking(s, v, op);
    case SetMaxSize(_) => CountKeepsBacking(s, v, op);
  }

  lemma {:induction false} MutationKeepsBacking<V>(s: Snapshots<V>, v: View<V>, op: Op<V>)
    requires Backed(s, v) && (op.Create? || op.Modify? || op.Remove?)
    ensures Backed(SpecStep(s, op), ViewStep(v, op))
  {
    hide SpecStep, ViewStep;
    CopiesStay(s, op);
    SameChange(s, v, op);
    assert s.saved == [] ==> OrOne(s.saved, s.current)[1..] == [] == v.kept;
  }

  lemma CopiesStay<V>(s: Snapshots<V>, op: Op<V>)
    requires (s.active > 0 ==> s.saved != []) && (op.Create? || op.Modify? || op.Remove?)
    ensures var t := SpecStep(s, op);
      t.active == s.active && (t.saved == s.saved || t.saved == OrOne(s.saved, s.current))
  {
    hide OrOne, Created, Modified, Removed;
  }

  lemma SameChange<V>(s: Snapshots<V>, v: View<V>, op: Op<V>)
    requires (s.active > 0 ==> s.saved != []) && (op.Create? || op.Modify? || op.Remove?) && s.current == v.current
    ensures SpecStep(s, op).current == ViewStep(v, op).current
    ensures ViewStep(v, op) == v.(current := ViewStep(v, op).current)
  {
    hide OrOne, Created, Modified, Removed;
  }

  lemma {:induction false} CountKeepsBacking<V>(s: Snapshots<V>, v: View<V>, op: Op<V>)
    requires Backed(s, v) && (op.Commit? || op.SetMaxSize?)
    ensures Backed(SpecStep(s, op), ViewStep(v, op))
  {
  }

  lemma {:induction false} ExitKeepsBacking<V>(s: Snapshots<V>, v: View<V>, op: Op<V>)
    requires Backed(s, v) && Disciplined(v, s.maxSize, op) && (op.Undo? || op.MergeSession? || op.PopCommit?)
    ensures Backed(SpecStep(s, op), ViewStep(v, op))
  {
    if v.kept != [] { LeaveKeepsBacking(s, v); }
  }

  /** Every call of the run finds the room it needs. */
  ghost predicate HasRoom<V>(v: View<V>, maxSize: nat, ops: seq<Op<V>>)
    decreases |ops|
  {
    ops != [] ==>
      && Disciplined(v, maxSize, ops[0])
      && HasRoom(ViewStep(v, ops[0]), if ops[0].SetMaxSize? then ops[0].size else maxSize, ops[1..])
  }

  /** With room, evicting old entries is invisible: the log behaves as if nothing were ever evicted. */
  lemma {:induction false} RunKeepsBacking<V>(l: Log<V>, s: Snapshots<V>, v: View<V>, ops: seq<Op<V>>)
    requires Refines(l, s) && Backed(s, v) && HasRoom(v, s.maxSize, ops)
    ensures Refines(Run(l, ops), SpecRun(s, ops)) && Backed(SpecRun(s, ops), ViewRun(v, ops))
    decreases |ops|
  {
    if ops != [] {
      StepRefines(l, s, ops[0]);
      StepKeepsBacking(s, v, ops[0]);
      RunKeepsBacking(Step(l, ops[0]), SpecStep(s, ops[0]), ViewStep(v, ops[0]), ops[1..]);
    }
  }

  /** The run never leaves the outermost `floor` sessions, by whichever door. */
  ghost predicate Inside<V>(v: View<V>, ops: seq<Op<V>>, floor: nat)
    decreases |ops|
  {
    && v.active >= floor
    && (ops != [] ==> !ops[0].Commit? && !ops[0].PopCommit? && Inside(ViewStep(v, ops[0]), ops[1..], floor))
  }

  function Prefixed<V>(p: seq<Store<V>>, v: View<V>): View<V> { v.(kept := p + v.kept) }

  lemma PrefixStep<V>(p: seq<Store<V>>, v: View<V>, op: Op<V>)
    requires v.active <= |v.kept| && !op.PopCommit?
    ensures ViewStep(Prefixed(p, v), op) == Prefixed(p, ViewStep(v, op))
    ensures ViewStep(v, op).active <= |ViewStep(v, op).kept|
  {
    if op.Start? {
      assert p + v.kept + [v.current] == p + (v.kept + [v.current]);
    } else if (op.Undo? || op.MergeSession?) && v.active > 0 {
      assert Init(p + v.kept) == p + Init(v.kept);
    }
  }

  /** What happens inside a session does not depend on what lies below it. */
  lemma {:induction false} PrefixRun<V>(p: seq<Store<V>>, v: View<V>, ops: seq<Op<V>>, floor: nat)
    requires v.active <= |v.kept| && Inside(v, ops, floor)
    ensures ViewRun(Prefixed(p, v), ops) == Prefixed(p, ViewRun(v, ops))
    ensures floor <= ViewRun(v, ops).active <= |ViewRun(v, ops).kept|
    decreases |ops|
  {
    if ops != [] {
      PrefixStep(p, v, ops[0]);
      PrefixRun(p, ViewStep(v, ops[0]), ops[1..], floor);
    }
  }

  /** The sessions that stay open keep their copies untouched. */
  lemma {:induction false} InsideKeepsOuter<V>(v: View<V>, ops: seq<Op<V>>, floor: nat)
    requires |v.kept| == v.active && Inside(v, ops, floor)
    ensures |ViewRun(v, ops).kept| == ViewRun(v, ops).active >= floor
    ensures ViewRun(v, ops).kept[..floor] == v.kept[..floor]
    decreases |ops|
  {
    if ops != [] {
      var v' := ViewStep(v, ops[0]);
      assert v'.active >= floor;
      assert v'.kept[..floor] == v.kept[..floor];
      InsideKeepsOuter(v', ops[1..], floor);
    }
  }

  /** A session's own work, starting from `store`: a function of that state alone. */
  ghost predicate Bracketed<V>(store: Store<V>, ops: seq<Op<V>>) {
    var open := View(store, [store], 1);
    Inside(open, ops, 1) && ViewRun(open, ops).active == 1
  }

  ghost function Effect<V>(store: Store<V>, ops: seq<Op<V>>): Store<V> {
    ViewRun(View(store, [store], 1), ops).current
  }

  lemma BracketedRun<V>(below: seq<Store<V>>, store: Store<V>, ops: seq<Op<V>>)
    requires Bracketed(store, ops)
    ensures ViewRun(View(store, below + [store], 1), ops) == View(Effect(store, ops), below + [store], 1)
  {
    var open := View(store, [store], 1);
    InsideKeepsOuter(open, ops, 1);
    var kept := ViewRun(open, ops).kept;
    assert kept == kept[..1] == [store];
    PrefixRun(below, open, ops, 1);
  }

  /** Opening a session over the copies `below` and working in it. */
  lemma SessionRun<V>(l: Log<V>, s: Snapshots<V>, below: seq<Store<V>>, ops: seq<Op<V>>) returns (s': Snapshots<V>)
    requires Refines(l, s) && Backed(s, View(l.store, below, 0)) && |below| <= l.maxSize
    requires Bracketed(l.store, ops) && HasRoom(View(l.store, below + [l.store], 1), l.maxSize, ops)
    ensures var l' := Run(Step(l, Start(false)), ops);
      Refines(l', s') && Backed(s', View(Effect(l.store, ops), below + [l.store], 1))
  {
    StepRefines(l, s, Start(false));
    StepKeepsBacking(s, View(l.store, below, 0), Start(false));
    RunKeepsBacking(Step(l, Start(false)), SpecStep(s, Start(false)), View(l.store, below + [l.store], 1), ops);
    BracketedRun(below, l.store, ops);
    s' := SpecRun(SpecStep(s, Start(false)), ops);
  }

  /** Dropping the pending session restores the head state, whatever was pushed, merged or dropped inside it. */
  lemma DroppingSessionRestores<V>(l: Log<V>, s: Snapshots<V>, ops: seq<Op<V>>)
    requires Refines(l, s) && l.active == 0
    requires Bracketed(l.store, ops) && HasRoom(View(l.store, [] + [l.store], 1), l.maxSize, ops)
    ensures var pending := Run(Step(l, Start(false)), ops);
      Accepts(pending, Undo) && Step(pending, Undo).store == l.store && Step(pending, Undo).active == 0
  {
    var s' := SessionRun(l, s, [], ops);
    UndoRestores(Run(Step(l, Start(false)), ops), s', View(Effect(l.store, ops), [] + [l.store], 1));
  }

  /** An undo gives back the newest copy. */
  lemma UndoRestores<V>(l: Log<V>, s: Snapshots<V>, v: View<V>)
    requires Refines(l, s) && Backed(s, v) && l.active > 0
    ensures Accepts(l, Undo) && Step(l, Undo).store == Last(v.kept) && Step(l, Undo).active == l.active - 1
  {
    LeaveKeepsBacking(s, v);
    StepRefines(l, s, Undo);
  }

  /** After an inner commit the enclosing undo stops at the state where the inner session started, so it
      restores its own start exactly when the two sessions started in the same state. */
  lemma InnerCommitMisleadsOuterUndo<V>(l: Log<V>, s: Snapshots<V>, starts: seq<Store<V>>)
    requires Refines(l, s) && l.active >= 2 && |starts| == l.active && Backed(s, View(l.store, starts, l.active))
    ensures Step(Step(l, Commit), Undo).store == starts[l.active - 1]
    ensures Step(Step(l, Commit), Undo).store == starts[l.active - 2] <==> starts[l.active - 1] == starts[l.active - 2]
  {
    StepRefines(l, s, Commit);
    hide Refines, Chained, Revert, Merge;
    UndoRestores(Step(l, Commit), SpecStep(s, Commit), View(l.store, starts, l.active - 1));
  }

  /** From any fresh database: a change made in the outer session before the inner one starts and commits survives
      the outer undo, so the undo misses its start whenever the change is one. */
  lemma InnerCommitKeepsOuterChange<V>(store: Store<V>, maxSize: nat, id: ObjectId, value: V)
    requires id in store.objects
    ensures var after := Run(Fresh(store, maxSize), [Start(false), Modify(id, value), Start(false), Commit, Undo]);
      && after.store == Modified(store, id, value) && after.active == 0
      && (after.store == store <==> store.objects[id] == value)
  {
    hide Step, Run, Fresh;
    var ops: seq<Op<V>> := [Start(false), Modify(id, value), Start(false), Commit, Undo];
    var l := Step(Step(Fresh(store, maxSize), Start(false)), Modify(id, value));
    RunFive(Fresh(store, maxSize), ops);
    ModifiedInside(store, maxSize, id, value);
    CommittedStartIsUndone(l);
    assert store.objects[id] == value ==> store.objects[id := value] == store.objects;
    assert Modified(store, id, value).objects[id] == value;
  }

  lemma ModifiedInside<V>(store: Store<V>, maxSize: nat, id: ObjectId, value: V)
    requires id in store.objects
    ensures var l := Step(Step(Fresh(store, maxSize), Start(false)), Modify(id, value));
      l.store == Modified(store, id, value) && !l.disabled && l.active == 1
  {
    hide Step;
    StartStep(Fresh(store, maxSize));
    ModifyStep(Step(Fresh(store, maxSize), Start(false)), id, value);
  }

  // What single calls do to a log that is recording.

  lemma StartStep<V>(l: Log<V>)
    requires !l.disabled
    ensures Step(l, Start(false)) == l.(stack := Evict(l.stack, l.maxSize) + [Empty()], active := l.active + 1)
  {
  }

  lemma ModifyStep<V>(l: Log<V>, id: ObjectId, value: V)
    requires id in l.store.objects
    ensures Step(l, Modify(id, value)) ==
      l.(store := Modified(l.store, id, value), stack := Step(l, Modify(id, value)).stack)
  {
    hide Modified, Recorded;
  }

  lemma CommitStep<V>(l: Log<V>)
    requires l.active > 0
    ensures Step(l, Commit) == l.(active := l.active - 1)
  {
  }

  lemma UndoStep<V>(l: Log<V>)
    requires !l.disabled && l.active > 0 && l.stack != []
    ensures Step(l, Undo) ==
      l.(store := Revert(Last(l.stack), l.store), stack := OrOne(Init(l.stack), Empty()), active := l.active - 1)
  {
    hide Revert;
  }

  lemma PopStep<V>(l: Log<V>)
    requires l.active == 0 && l.stack != []
    ensures Step(l, PopCommit) ==
      l.(store := Revert(Last(l.stack), l.store), stack := Init(l.stack), disabled := false)
  {
    hide Revert;
  }

  /** An inner session that commits at once is all that the next undo takes back. */
  lemma CommittedStartIsUndone<V>(l: Log<V>)
    requires !l.disabled && l.active == 1
    ensures var after := Step(Step(Step(l, Start(false)), Commit), Undo);
      after.store == l.store && after.active == 0
  {
    hide Step, Evict;
    StartStep(l);
    var l1 := Step(l, Start(false));
    CommitStep(l1);
    UndoStep(l1.(active := l1.active - 1));
    assert Revert(Empty(), l.store) == l.store;
  }

  lemma RunFive<V>(l: Log<V>, ops: seq<Op<V>>)
    requires |ops| == 5
    ensures Run(l, ops) == Step(Step(Step(Step(Step(l, ops[0]), ops[1]), ops[2]), ops[3]), ops[4])
  {
    hide Step;
    var l1 := Step(l, ops[0]);
    var l2 := Step(l1, ops[1]);
    var l3 := Step(l2, ops[2]);
    var l4 := Step(l3, ops[3]);
    assert ops[1..][1..] == ops[2..] && ops[2..][1..] == ops[3..] && ops[3..][1..] == ops[4..] && ops[4..][1..] == [];
    assert Run(l4, ops[4..]) == Run(Step(l4, ops[4]), []) == Step(l4, ops[4]);
    assert Run(l3, ops[3..]) == Run(l4, ops[4..]);
    assert Run(l2, ops[2..]) == Run(l3, ops[3..]);
    assert Run(l1, ops[1..]) == Run(l2, ops[2..]);
  }

  /** Merging needs an entry below the session's own: a session in which objects were only created, changed and
      removed can be merged exactly when the stack had an entry before and the history limit let it stay. */
  lemma MergeNeedsAnEntryBelow<V>(l: Log<V>, force: bool, ops: seq<Op<V>>)
    requires Accepts(l, Start(force)) && (forall op <- ops :: op.Create? || op.Modify? || op.Remove?)
    ensures Accepts(Run(Step(l, Start(force)), ops), MergeSession) <==> l.stack != [] && l.maxSize > 0
  {
    StackKeepsHeight(Step(l, Start(force)), ops);
  }

  /** A session forced open on the empty stack of a fresh database, with nothing done in it, refuses to be merged; with
      an inner session committed in it, it does not. */
  lemma OutermostSessionCannotMerge<V>(store: Store<V>)
    ensures var l := Step(Fresh(store, 256), Start(true));
      && !Accepts(l, MergeSession)
      && Accepts(Step(Step(l, Start(false)), Commit), MergeSession)
  {
  }

  lemma {:induction false} StackKeepsHeight<V>(l: Log<V>, ops: seq<Op<V>>)
    requires l.stack != [] && (forall op <- ops :: op.Create? || op.Modify? || op.Remove?)
    ensures |Run(l, ops).stack| == |l.stack| && Run(l, ops).active == l.active
    decreases |ops|
  {
    if ops != [] {
      assert ops[0] in ops;
      StackKeepsHeight(Step(l, ops[0]), ops[1..]);
    }
  }
}
