/** The undo database in its own form: an object whose hooks, undo and merge update maps in place. */
module UndoDatabase {
  import opened ObjectStore
  import opened UndoDiff
  import opened UndoLog

  /** Fold the inner diff into the outer one, container by container. */
  method MergeInto<V>(prev: Diff<V>, state: Diff<V>) returns (merged: Diff<V>)
    ensures merged == Merge(prev, state)
  {
    var oldValues := MergeUpdates(prev, state);
    var newIds := MergeNewIds(prev.newIds, state.newIds);
    var oldNextIds := MergeNextIds(prev.oldNextIds, state.oldNextIds);
    merged := MergeRemovals(Diff(oldValues, oldNextIds, newIds, prev.removed), state.removed);
  }

  lemma MergeOneUpdate<V>(prev: Diff<V>, state: Diff<V>, done: set<ObjectId>, id: ObjectId)
    requires id in state.oldValues && id !in done
    ensures var before, after := MergedOldValues(prev, state, done), MergedOldValues(prev, state, done + {id});
      after == if id !in prev.newIds && id !in before then before[id := state.oldValues[id]] else before
  {
    var before, after := MergedOldValues(prev, state, done), MergedOldValues(prev, state, done + {id});
    assert id in before <==> id in prev.oldValues;
    forall x | x != id ensures x in before <==> x in after {}
  }

  method MergeUpdates<V>(prev: Diff<V>, state: Diff<V>) returns (oldValues: map<ObjectId, V>)
    ensures oldValues == MergedOldValues(prev, state, state.oldValues.Keys)
  {
    oldValues := prev.oldValues;
    var todo, done := state.oldValues.Keys, {};
    hide MergedOldValues;
    NoneUpdated(prev, state);
    while todo != {}
      invariant todo + done == state.oldValues.Keys && todo !! done
      invariant oldValues == MergedOldValues(prev, state, done)
      decreases |todo|
    {
      var id :| id in todo;
      MergeOneUpdate(prev, state, done, id);
      if id !in prev.newIds && id !in oldValues {
        oldValues := oldValues[id := state.oldValues[id]];
      }
      todo, done := todo - {id}, done + {id};
    }
    assert done == state.oldValues.Keys;
  }

  lemma NoneUpdated<V>(prev: Diff<V>, state: Diff<V>)
    ensures MergedOldValues(prev, state, {}) == prev.oldValues
  {
  }

  method MergeNewIds(prev: set<ObjectId>, state: set<ObjectId>) returns (newIds: set<ObjectId>)
    ensures newIds == prev + state
  {
    newIds := prev;
    var todo := state;
    while todo != {}
      invariant todo <= state
      invariant newIds == prev + (state - todo)
      decreases |todo|
    {
      var id :| id in todo;
      newIds, todo := newIds + {id}, todo - {id};
    }
  }

  lemma MergeOneRemoval<V>(prev: Diff<V>, removals: map<ObjectId, V>, done: set<ObjectId>, id: ObjectId)
    requires id in removals && id !in done
    ensures var before := MergedRemoved(prev.removed, prev.oldValues, prev.newIds, removals, done);
      MergedRemoved(prev.removed, prev.oldValues, prev.newIds, removals, done + {id}) ==
      if id in prev.newIds then before
      else before[id := if id in prev.oldValues then prev.oldValues[id] else removals[id]]
    ensures prev.newIds - (done + {id}) == prev.newIds - done - {id}
    ensures id !in prev.newIds ==>
      prev.oldValues - (done + {id} - prev.newIds) == prev.oldValues - (done - prev.newIds) - {id}
    ensures id in prev.newIds ==> done + {id} - prev.newIds == done - prev.newIds
  {
    OneMoreMerged(prev, removals, done, id);
  }

  lemma OneMoreMerged<V>(prev: Diff<V>, removals: map<ObjectId, V>, done: set<ObjectId>, id: ObjectId)
    requires id in removals && id !in done
    ensures var before := MergedRemoved(prev.removed, prev.oldValues, prev.newIds, removals, done);
      MergedRemoved(prev.removed, prev.oldValues, prev.newIds, removals, done + {id}) ==
      if id in prev.newIds then before
      else before[id := if id in prev.oldValues then prev.oldValues[id] else removals[id]]
  {
    var before := MergedRemoved(prev.removed, prev.oldValues, prev.newIds, removals, done);
    var after := MergedRemoved(prev.removed, prev.oldValues, prev.newIds, removals, done + {id});
    forall x | x != id ensures x in before <==> x in after {}
  }

  /** The outer diff after the inner removals of `done` have been taken in. */
  function RemovedSoFar<V>(prev: Diff<V>, removals: map<ObjectId, V>, done: set<ObjectId>): Diff<V> {
    Diff(prev.oldValues - (done - prev.newIds), prev.oldNextIds, prev.newIds - done,
         MergedRemoved(prev.removed, prev.oldValues, prev.newIds, removals, done))
  }

  function TakeRemoval<V>(d: Diff<V>, id: ObjectId, was: V): Diff<V> {
    if id in d.newIds then d.(newIds := d.newIds - {id})
    else if id in d.oldValues then d.(removed := d.removed[id := d.oldValues[id]], oldValues := d.oldValues - {id})
    else d.(removed := d.removed[id := was])
  }

  lemma NoneRemoved<V>(prev: Diff<V>, removals: map<ObjectId, V>)
    ensures RemovedSoFar(prev, removals, {}) == prev
  {
    assert MergedRemoved(prev.removed, prev.oldValues, prev.newIds, removals, {}) == prev.removed;
  }

  lemma OneMoreRemoved<V>(prev: Diff<V>, removals: map<ObjectId, V>, done: set<ObjectId>, id: ObjectId)
    requires id in removals && id !in done
    ensures TakeRemoval(RemovedSoFar(prev, removals, done), id, removals[id]) ==
      RemovedSoFar(prev, removals, done + {id})
  {
    MergeOneRemoval(prev, removals, done, id);
    hide MergedRemoved;
  }

  method MergeRemovals<V>(prev: Diff<V>, removals: map<ObjectId, V>) returns (d: Diff<V>)
    ensures d == RemovedSoFar(prev, removals, removals.Keys)
  {
    hide RemovedSoFar;
    d := prev;
    NoneRemoved(prev, removals);
    var todo, done := removals.Keys, {};
    while todo != {}
      invariant todo + done == removals.Keys && todo !! done
      invariant d == RemovedSoFar(prev, removals, done)
      decreases |todo|
    {
      var id :| id in todo;
      OneMoreRemoved(prev, removals, done, id);
      if id in d.newIds {
        d := d.(newIds := d.newIds - {id});
      } else if id in d.oldValues {
        d := d.(removed := d.removed[id := d.oldValues[id]], oldValues := d.oldValues - {id});
      } else {
        d := d.(removed := d.removed[id := removals[id]]);
      }
      todo, done := todo - {id}, done + {id};
    }
    assert done == removals.Keys;
  }

  method MergeNextIds(prev: map<IndexKey, nat>, state: map<IndexKey, nat>) returns (merged: map<IndexKey, nat>)
    ensures merged == state + prev
  {
    merged := prev;
    var todo := state.Keys;
    while todo != {}
      invariant todo <= state.Keys
      invariant merged == (state - todo) + prev
      decreases |todo|
    {
      var k :| k in todo;
      if k !in merged {
        merged := merged[k := state[k]];
      }
      todo := todo - {k};
    }
  }

  // What single calls do to a log and its copies.

  lemma CreateSteps<V>(l: Log<V>, s: Snapshots<V>, op: Op<V>)
    requires Refines(l, s) && op.Create?
    ensures s.active > 0 ==> s.saved != []
    ensures op.index !in l.store.nextIds ==> Step(l, op) == l && SpecStep(s, op) == s
    ensures op.index in l.store.nextIds ==>
      var id := NextId(l.store, op.index);
      && id !in l.store.objects
      && Step(l, op) ==
          l.(store := Created(l.store, op.index, op.value), stack := Recorded(l, d => RecordCreate(d, id)))
      && SpecStep(s, op) ==
           s.(current := Created(s.current, op.index, op.value), saved := OrOne(s.saved, s.current))
  {
    hide Recorded, RecordCreate;
  }

  lemma TopReverts<V>(l: Log<V>, s: Snapshots<V>)
    requires Refines(l, s)
    ensures |l.stack| == |s.saved|
    ensures l.stack != [] ==>
      Reverts(Last(l.stack), l.store, Last(s.saved)) && Revert(Last(l.stack), l.store) == Last(s.saved)
  {
    if l.stack != [] {
      var n := |l.stack|;
      assert Reverts(l.stack[n - 1], After(l.store, s.saved, n - 1), s.saved[n - 1]);
      hide Reverts, Revert;
      RevertRestores(Last(l.stack), l.store, Last(s.saved));
    }
  }

  lemma UndoSteps<V>(l: Log<V>, s: Snapshots<V>)
    requires Refines(l, s)
    ensures !l.disabled && |l.stack| == |s.saved| && s.active == l.active && (l.active > 0 ==> l.stack != [])
    ensures l.active == 0 ==> Step(l, Op<V>.Undo) == l && SpecStep(s, Op<V>.Undo) == s
    ensures l.active > 0 ==>
      && Reverts(Last(l.stack), l.store, Last(s.saved))
      && Step(l, Op<V>.Undo) ==
           l.(store := Last(s.saved), stack := OrOne(Init(l.stack), Empty()), active := l.active - 1)
      && SpecStep(s, Op<V>.Undo) ==
           s.(current := Last(s.saved), saved := OrOne(Init(s.saved), Last(s.saved)), active := s.active - 1)
  {
    hide Reverts, Revert, Chained;
    TopReverts(l, s);
  }

  lemma PopSteps<V>(l: Log<V>, s: Snapshots<V>)
    requires Refines(l, s)
    ensures !l.disabled && |l.stack| == |s.saved| && s.active == l.active && (s.active > 0 ==> s.saved != [])
    ensures l.active > 0 || l.stack == [] ==> Step(l, Op<V>.PopCommit) == l && SpecStep(s, Op<V>.PopCommit) == s
    ensures l.active == 0 && l.stack != [] ==>
      && Reverts(Last(l.stack), l.store, Last(s.saved))
      && Step(l, Op<V>.PopCommit) == l.(store := Last(s.saved), stack := Init(l.stack))
      && SpecStep(s, Op<V>.PopCommit) == s.(current := Last(s.saved), saved := Init(s.saved))
  {
    hide Reverts, Revert, Chained;
    TopReverts(l, s);
  }

  class UndoDatabase<V> {
    var objects: map<ObjectId, V>
    var nextIds: map<IndexKey, nat>
    var stack: seq<Diff<V>>
    var active: nat
    var disabled: bool
    var maxSize: nat
    /** What each entry of the stack would restore. */
    ghost var saved: seq<Store<V>>

    ghost function State(): Log<V>
      reads this
    {
      Log(Store(objects, nextIds), stack, active, disabled, maxSize)
    }

    ghost function Copies(): Snapshots<V>
      reads this
    {
      Snapshots(Store(objects, nextIds), saved, active, maxSize)
    }

    /** Up to date, whether or not recording is on. */
    ghost predicate Ready()
      reads this
    {
      Refines(State().(disabled := false), Copies())
    }

    ghost predicate Valid()
      reads this
    {
      Refines(State(), Copies())
    }

    /** Recording is off at first, while the given objects are put in place. */
    constructor (initial: Store<V>)
      requires WellFormed(initial)
      ensures disabled && State() == Fresh(initial, 256).(disabled := true)
      ensures Copies() == Snapshots(initial, [], 0, 256)
      ensures Ready()
    {
      objects, nextIds, stack, active, disabled, maxSize := initial.objects, initial.nextIds, [], 0, true, 256;
      saved := [];
    }

    /** From here on the log refines the snapshots. */
    method Enable()
      requires Ready()
      modifies this`disabled
      ensures Valid() && State() == old(State()).(disabled := false) && Copies() == old(Copies())
    {
      disabled := false;
    }

    method Create(index: IndexKey, value: V) returns (ok: bool, id: ObjectId)
      requires Valid()
      modifies this
      ensures Valid() && ok == Accepts(old(State()), Op<V>.Create(index, value))
      ensures State() == Step(old(State()), Op<V>.Create(index, value))
      ensures Copies() == SpecStep(old(Copies()), Op<V>.Create(index, value))
      ensures ok ==> id == ObjectId(index, old(nextIds)[index]) && id !in old(objects)
      ensures ok ==> objects == old(objects)[id := value]
      ensures ok ==> nextIds == old(nextIds)[index := old(nextIds)[index] + 1]
    {
      hide Refines, RecordCreate, Step, SpecStep;
      ghost var op := Op<V>.Create(index, value);
      StepRefines(State(), Copies(), op);
      CreateSteps(State(), Copies(), op);
      ok, id := index in nextIds, ObjectId(index, 0);
      if !ok { return; }
      id := ObjectId(index, nextIds[index]);
      saved := OrOne(saved, Store(objects, nextIds));
      objects, nextIds := objects[id := value], nextIds[index := nextIds[index] + 1];
      OnCreate(id);
    }

    method OnCreate(id: ObjectId)
      modifies this`stack
      ensures stack == Recorded(old(State()), d => RecordCreate(d, id))
    {
      if disabled { return; }
      if stack == [] { stack := [Empty()]; }
      var state := stack[|stack| - 1];
      if id.index !in state.oldNextIds {
        state := state.(oldNextIds := state.oldNextIds[id.index := id.instance]);
      }
      state := state.(newIds := state.newIds + {id});
      stack := stack[..|stack| - 1] + [state];
    }

    method Modify(id: ObjectId, value: V) returns (ok: bool)
      requires Valid()
      modifies this
      ensures Valid() && ok == Accepts(old(State()), Op<V>.Modify(id, value))
      ensures State() == Step(old(State()), Op<V>.Modify(id, value))
      ensures Copies() == SpecStep(old(Copies()), Op<V>.Modify(id, value))
      ensures objects == (if ok then old(objects)[id := value] else old(objects)) && nextIds == old(nextIds)
    {
      ghost var op := Op<V>.Modify(id, value);
      StepRefines(State(), Copies(), op);
      ok := id in objects;
      if !ok { return; }
      saved := SpecStep(Copies(), op).saved;
      OnModify(id, objects[id]);
      objects := objects[id := value];
    }

    method OnModify(id: ObjectId, was: V)
      modifies this`stack
      ensures stack == Recorded(old(State()), d => RecordModify(d, id, was))
    {
      if disabled { return; }
      if stack == [] { stack := [Empty()]; }
      var state := stack[|stack| - 1];
      if id in state.newIds || id in state.oldValues {
        assert stack == stack[..|stack| - 1] + [state];
        return;
      }
      stack := stack[..|stack| - 1] + [state.(oldValues := state.oldValues[id := was])];
    }

    method Remove(id: ObjectId) returns (ok: bool)
      requires Valid()
      modifies this
      ensures Valid() && ok == Accepts(old(State()), Op<V>.Remove(id))
      ensures State() == Step(old(State()), Op<V>.Remove(id))
      ensures Copies() == SpecStep(old(Copies()), Op<V>.Remove(id))
      ensures objects == (if ok then old(objects) - {id} else old(objects)) && nextIds == old(nextIds)
    {
      ghost var op := Op<V>.Remove(id);
      StepRefines(State(), Copies(), op);
      ok := id in objects;
      if !ok { return; }
      saved := SpecStep(Copies(), op).saved;
      OnRemove(id, objects[id]);
      objects := objects - {id};
    }

    method OnRemove(id: ObjectId, was: V)
      modifies this`stack
      ensures stack == Recorded(old(State()), d => RecordRemove(d, id, was))
    {
      if disabled { return; }
      if stack == [] { stack := [Empty()]; }
      var state := stack[|stack| - 1];
      if id in state.newIds {
        state := state.(newIds := state.newIds - {id});
      } else if id in state.oldValues {
        state := state.(removed := state.removed[id := state.oldValues[id]], oldValues := state.oldValues - {id});
      } else if id !in state.removed {
        state := state.(removed := state.removed[id := was]);
      }
      stack := stack[..|stack| - 1] + [state];
    }

    method EvictOldest()
      modifies this`stack
      ensures stack == Evict(old(stack), maxSize)
    {
      while |stack| > maxSize
        invariant |stack| <= |old(stack)| && stack == old(stack)[|old(stack)| - |stack|..]
        invariant if |old(stack)| > maxSize then |stack| >= maxSize else |stack| == |old(stack)|
      {
        stack := stack[1..];
      }
      assert |old(stack)| <= maxSize ==> stack == old(stack);
    }

    /** Nothing is recorded until recording is switched on again, or a session forces it. */
    method Disable()
      requires Ready()
      modifies this`disabled
      ensures Ready() && State() == old(State()).(disabled := true) && Copies() == old(Copies())
    {
      disabled := true;
    }

    /** While recording is off only a forced session starts, and switches it on; any other is inert. */
    method StartSession(force: bool) returns (started: bool, disableOnExit: bool)
      requires Ready()
      modifies this
      ensures started == Accepts(old(State()), Op<V>.Start(force)) && disableOnExit == (old(disabled) && force)
      ensures started ==> Valid() && Copies() == SpecStep(old(Copies()), Op<V>.Start(force))
      ensures State() == Step(old(State()), Op<V>.Start(force)) && (!started ==> Copies() == old(Copies()))
    {
      ghost var op := Op<V>.Start(force);
      StepRefines(State().(disabled := false), Copies(), op);
      disableOnExit := disabled && force;
      if disabled && !force { return false, disableOnExit; }
      if force { disabled := false; }
      ghost var after := SpecStep(Copies(), op).saved;
      EvictOldest();
      stack := stack + [Empty()];
      active := active + 1;
      saved := after;
      return true, disableOnExit;
    }

    /** The four loops that undo and pop share; every lookup in them succeeds. */
    method RestoreFrom(state: Diff<V>, ghost target: Store<V>)
      requires Reverts(state, Store(objects, nextIds), target)
      modifies this`objects, this`nextIds
      ensures Store(objects, nextIds) == Revert(state, old(Store(objects, nextIds))) == target
    {
      RevertRestores(state, Store(objects, nextIds), target);
      PutBackValues(state.oldValues);
      DropNewObjects(state.newIds);
      ResetCounters(state.oldNextIds);
      assert state.removed.Keys !! objects.Keys;
      Reinsert(state.removed);
    }

    method PutBackValues(oldValues: map<ObjectId, V>)
      requires oldValues.Keys <= objects.Keys
      modifies this`objects
      ensures objects == old(objects) + oldValues
    {
      var todo := oldValues.Keys;
      while todo != {}
        invariant todo <= oldValues.Keys
        invariant objects == old(objects) + (oldValues - todo)
        decreases |todo|
      {
        var id :| id in todo;
        assert id in objects;
        objects, todo := objects[id := oldValues[id]], todo - {id};
      }
      assert oldValues - {} == oldValues;
    }

    method DropNewObjects(newIds: set<ObjectId>)
      requires newIds <= objects.Keys
      modifies this`objects
      ensures objects == old(objects) - newIds
    {
      var todo := newIds;
      while todo != {}
        invariant todo <= newIds
        invariant objects == old(objects) - (newIds - todo)
        decreases |todo|
      {
        var id :| id in todo;
        assert id in objects;
        objects, todo := objects - {id}, todo - {id};
      }
      assert newIds - {} == newIds;
    }

    method ResetCounters(oldNextIds: map<IndexKey, nat>)
      requires oldNextIds.Keys <= nextIds.Keys
      modifies this`nextIds
      ensures nextIds == old(nextIds) + oldNextIds
    {
      var todo := oldNextIds.Keys;
      while todo != {}
        invariant todo <= oldNextIds.Keys
        invariant nextIds == old(nextIds) + (oldNextIds - todo)
        decreases |todo|
      {
        var k :| k in todo;
        nextIds, todo := nextIds[k := oldNextIds[k]], todo - {k};
      }
      assert oldNextIds - {} == oldNextIds;
    }

    method Reinsert(removed: map<ObjectId, V>)
      requires removed.Keys !! objects.Keys
      modifies this`objects
      ensures objects == old(objects) + removed
    {
      var todo := removed.Keys;
      while todo != {}
        invariant todo <= removed.Keys
        invariant objects == old(objects) + (removed - todo)
        decreases |todo|
      {
        var id :| id in todo;
        assert id !in objects;
        objects, todo := objects[id := removed[id]], todo - {id};
      }
      assert removed - {} == removed;
    }

    method UndoSession() returns (ok: bool)
      requires Valid()
      modifies this
      ensures Valid() && ok == (old(active) > 0)
      ensures State() == Step(old(State()), Op<V>.Undo)
      ensures Copies() == SpecStep(old(Copies()), Op<V>.Undo)
      ensures ok ==> Store(objects, nextIds) == Last(old(saved))
    {
      hide Step, SpecStep, Refines, Reverts, Revert;
      StepRefines(State(), Copies(), Op<V>.Undo);
      UndoSteps(State(), Copies());
      if disabled || active == 0 { return false; }
      ghost var after := OrOne(Init(saved), Last(saved));
      disabled := true;
      RestoreFrom(stack[|stack| - 1], saved[|stack| - 1]);
      stack := stack[..|stack| - 1];
      if stack == [] { stack := [Empty()]; }
      disabled := false;
      active := active - 1;
      saved := after;
      return true;
    }

    method MergeSessions() returns (ok: bool)
      requires Valid()
      modifies this
      ensures Valid() && ok == (old(active) > 0 && |old(stack)| >= 2)
      ensures State() == Step(old(State()), Op<V>.MergeSession)
      ensures Copies() == SpecStep(old(Copies()), Op<V>.MergeSession)
    {
      StepRefines(State(), Copies(), Op<V>.MergeSession);
      if active == 0 || |stack| < 2 { return false; }
      ghost var after := SpecStep(Copies(), Op<V>.MergeSession).saved;
      var n := |stack|;
      var merged := MergeInto(stack[n - 2], stack[n - 1]);
      stack := stack[..n - 2] + [merged];
      active := active - 1;
      saved := after;
      return true;
    }

    method CommitSession() returns (ok: bool)
      requires Valid()
      modifies this
      ensures Valid() && ok == (old(active) > 0)
      ensures State() == Step(old(State()), Op<V>.Commit)
      ensures Copies() == SpecStep(old(Copies()), Op<V>.Commit)
    {
      StepRefines(State(), Copies(), Op<V>.Commit);
      if active == 0 { return false; }
      active := active - 1;
      return true;
    }

    method PopCommitted() returns (ok: bool)
      requires Valid()
      modifies this
      ensures Valid() && ok == (old(active) == 0 && old(stack) != [])
      ensures State() == Step(old(State()), Op<V>.PopCommit)
      ensures Copies() == SpecStep(old(Copies()), Op<V>.PopCommit)
      ensures ok ==> Store(objects, nextIds) == Last(old(saved))
    {
      hide Step, SpecStep, Refines, Reverts, Revert;
      StepRefines(State(), Copies(), Op<V>.PopCommit);
      PopSteps(State(), Copies());
      if active != 0 || stack == [] { return false; }
      disabled := true;
      RestoreFrom(stack[|stack| - 1], saved[|stack| - 1]);
      stack := stack[..|stack| - 1];
      disabled := false;
      saved := Init(saved);
      return true;
    }
  }
}
