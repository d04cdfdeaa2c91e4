/** The object store behind every index, and the ids it hands out. */
module ObjectStore {
  /** An index is named by its space and its type. */
  datatype IndexKey = IndexKey(space: nat, kind: nat)

  datatype ObjectId = ObjectId(index: IndexKey, instance: nat)

  /** All objects by id, and for every registered index the instance it allocates next. */
  datatype Store<V> = Store(objects: map<ObjectId, V>, nextIds: map<IndexKey, nat>)

  /** Every object has an id that its index has already handed out. */
  ghost predicate WellFormed<V>(s: Store<V>) {
    forall id <- s.objects :: id.index in s.nextIds && id.instance < s.nextIds[id.index]
  }

  function NextId<V>(s: Store<V>, index: IndexKey): ObjectId
    requires index in s.nextIds
  {
    ObjectId(index, s.nextIds[index])
  }

  function Created<V>(s: Store<V>, index: IndexKey, value: V): Store<V>
    requires index in s.nextIds
  {
    Store(s.objects[NextId(s, index) := value], s.nextIds[index := s.nextIds[index] + 1])
  }

  /** A new object takes the id its index hands out next, and the counter goes on by one: two objects created one after
      the other get consecutive ids, neither of which was taken. Nothing else changes. */
  lemma CreatedIs<V>(s: Store<V>, index: IndexKey, value: V)
    requires WellFormed(s) && index in s.nextIds
    ensures var id, t := NextId(s, index), Created(s, index, value);
      && id !in s.objects && t.objects == s.objects[id := value] && WellFormed(t)
      && index in t.nextIds && NextId(t, index) == id.(instance := id.instance + 1) && NextId(t, index) !in t.objects
      && t.nextIds - {index} == s.nextIds - {index}
  {
  }

  function Modified<V>(s: Store<V>, id: ObjectId, value: V): Store<V> {
    s.(objects := s.objects[id := value])
  }

  function Removed<V>(s: Store<V>, id: ObjectId): Store<V> {
    s.(objects := s.objects - {id})
  }
}

/** One entry of the undo stack: what has to be put back to leave a session. */
module UndoDiff {
  import opened ObjectStore

  datatype Diff<V> = Diff(
    oldValues: map<ObjectId, V>,
    oldNextIds: map<IndexKey, nat>,
    newIds: set<ObjectId>,
    removed: map<ObjectId, V>)

  function Empty<V>(): Diff<V> { Diff(map[], map[], {}, map[]) }

  function RecordCreate<V>(d: Diff<V>, id: ObjectId): Diff<V> {
    d.(oldNextIds := if id.index in d.oldNextIds then d.oldNextIds else d.oldNextIds[id.index := id.instance],
       newIds := d.newIds + {id})
  }

  function RecordModify<V>(d: Diff<V>, id: ObjectId, was: V): Diff<V> {
    if id in d.newIds || id in d.oldValues then d else d.(oldValues := d.oldValues[id := was])
  }

  function RecordRemove<V>(d: Diff<V>, id: ObjectId, was: V): Diff<V> {
    if id in d.newIds then d.(newIds := d.newIds - {id})
    else if id in d.oldValues then
      d.(removed := d.removed[id := d.oldValues[id]], oldValues := d.oldValues - {id})
    else if id in d.removed then d
    else d.(removed := d.removed[id := was])
  }

  /** Put the changed values back, drop the new objects, reset the counters, reinsert the removed objects. */
  function Revert<V>(d: Diff<V>, s: Store<V>): Store<V> {
    Store((s.objects + d.oldValues) - d.newIds + d.removed, s.nextIds + d.oldNextIds)
  }

  /** The diff that leaves two nested sessions at once; `a` is the outer one. */
  function Merge<V>(a: Diff<V>, b: Diff<V>): Diff<V> {
    var oldValues := MergedOldValues(a, b, b.oldValues.Keys);
    var newIds := a.newIds + b.newIds;
    Diff(oldValues - (b.removed.Keys - newIds),
         b.oldNextIds + a.oldNextIds,
         newIds - b.removed.Keys,
         MergedRemoved(a.removed, oldValues, newIds, b.removed, b.removed.Keys))
  }

  /** The outer old values after the inner ones of `done` have been looked at. */
  function MergedOldValues<V>(a: Diff<V>, b: Diff<V>, done: set<ObjectId>): map<ObjectId, V> {
    a.oldValues + map id | id in b.oldValues && id in done && id !in a.newIds && id !in a.oldValues :: b.oldValues[id]
  }

  /** The outer removals after the inner ones of `done` have been looked at. */
  function MergedRemoved<V>(before: map<ObjectId, V>, oldValues: map<ObjectId, V>, newIds: set<ObjectId>,
                            removed: map<ObjectId, V>, done: set<ObjectId>): map<ObjectId, V> {
    before + map id | id in removed && id in done && id !in newIds ::
      if id in oldValues then oldValues[id] else removed[id]
  }

  /** What a diff says about one object. */
  datatype Entry<V> = New | Upd(was: V) | Del(was: V) | Nop

  function EntryOf<V>(d: Diff<V>, id: ObjectId): Entry<V> {
    if id in d.newIds then New
    else if id in d.oldValues then Upd(d.oldValues[id])
    else if id in d.removed then Del(d.removed[id])
    else Nop
  }

  /** No object is in two of the three containers. */
  ghost predicate Disjoint<V>(d: Diff<V>, id: ObjectId) {
    && (id in d.newIds ==> id !in d.oldValues && id !in d.removed)
    && (id in d.oldValues ==> id !in d.removed)
  }

  /** The entry of `id` explains how `s` and the earlier `t` differ on it. */
  ghost predicate Explains<V>(d: Diff<V>, s: Store<V>, t: Store<V>, id: ObjectId) {
    && Disjoint(d, id)
    && match EntryOf(d, id)
       case New =>
         && id in s.objects && id !in t.objects
         && id.index in t.nextIds && t.nextIds[id.index] <= id.instance
       case Upd(was) => id in s.objects && id in t.objects && t.objects[id] == was
       case Del(was) => id !in s.objects && id in t.objects && t.objects[id] == was
       case Nop => (id in s.objects <==> id in t.objects) && (id in s.objects ==> s.objects[id] == t.objects[id])
  }

  /** The same for the counter of one index; counters only grow. */
  ghost predicate ExplainsNext<V>(d: Diff<V>, s: Store<V>, t: Store<V>, k: IndexKey) {
    && (k in s.nextIds <==> k in t.nextIds)
    && (k in t.nextIds ==> t.nextIds[k] <= s.nextIds[k])
    && (k in d.oldNextIds ==> k in t.nextIds && t.nextIds[k] == d.oldNextIds[k])
    && (k !in d.oldNextIds && k in t.nextIds ==> t.nextIds[k] == s.nextIds[k])
  }

  /** `d` leads from state `s` back to the earlier state `t`, touching only what it may touch. */
  ghost predicate Reverts<V>(d: Diff<V>, s: Store<V>, t: Store<V>) {
    && WellFormed(s) && WellFormed(t)
    && (forall id :: Explains(d, s, t, id))
    && (forall k :: ExplainsNext(d, s, t, k))
  }

  /** Everything the four loops of an undo rely on, and what they end in. */
  lemma RevertRestores<V>(d: Diff<V>, s: Store<V>, t: Store<V>)
    requires Reverts(d, s, t)
    ensures Revert(d, s) == t
    ensures d.oldValues.Keys <= s.objects.Keys
    ensures d.newIds <= s.objects.Keys
    ensures d.removed.Keys !! s.objects.Keys
    ensures d.oldValues.Keys !! d.newIds !! d.removed.Keys
    ensures d.oldNextIds.Keys <= s.nextIds.Keys
  {
    hide Explains, ExplainsNext;
    forall id
      ensures id in Revert(d, s).objects <==> id in t.objects
      ensures id in t.objects ==> Revert(d, s).objects[id] == t.objects[id]
    {
      ObjectRestored(d, s, t, id);
    }
    forall k
      ensures k in Revert(d, s).nextIds <==> k in t.nextIds
      ensures k in t.nextIds ==> Revert(d, s).nextIds[k] == t.nextIds[k]
    {
      CounterRestored(d, s, t, k);
    }
    assert Revert(d, s).objects == t.objects && Revert(d, s).nextIds == t.nextIds;
    hide Revert;
    LookupsSucceed(d, s, t);
  }

  lemma ObjectRestored<V>(d: Diff<V>, s: Store<V>, t: Store<V>, id: ObjectId)
    requires Explains(d, s, t, id)
    ensures id in Revert(d, s).objects <==> id in t.objects
    ensures id in t.objects ==> Revert(d, s).objects[id] == t.objects[id]
  {
  }

  lemma CounterRestored<V>(d: Diff<V>, s: Store<V>, t: Store<V>, k: IndexKey)
    requires ExplainsNext(d, s, t, k)
    ensures k in Revert(d, s).nextIds <==> k in t.nextIds
    ensures k in t.nextIds ==> Revert(d, s).nextIds[k] == t.nextIds[k]
  {
  }

  /** What the diff says was there is there, what it says was removed is not, and no object is in two of its parts. */
  lemma LookupsSucceed<V>(d: Diff<V>, s: Store<V>, t: Store<V>)
    requires Reverts(d, s, t)
    ensures d.oldValues.Keys <= s.objects.Keys
    ensures d.newIds <= s.objects.Keys
    ensures d.removed.Keys !! s.objects.Keys
    ensures d.oldValues.Keys !! d.newIds !! d.removed.Keys
    ensures d.oldNextIds.Keys <= s.nextIds.Keys
  {
    forall id
      ensures (id in d.oldValues || id in d.newIds ==> id in s.objects) && (id in d.removed ==> id !in s.objects)
      ensures Disjoint(d, id)
    {
      assert Explains(d, s, t, id);
    }
    forall k ensures k in d.oldNextIds ==> k in s.nextIds {
      assert ExplainsNext(d, s, t, k);
    }
  }

  lemma EmptyReverts<V>(s: Store<V>)
    requires WellFormed(s)
    ensures Reverts(Empty(), s, s)
  {
  }

  lemma CreateReverts<V>(d: Diff<V>, s: Store<V>, t: Store<V>, index: IndexKey, value: V)
    requires Reverts(d, s, t) && index in s.nextIds
    ensures Reverts(RecordCreate(d, NextId(s, index)), Created(s, index, value), t)
  {
    var d', s' := RecordCreate(d, NextId(s, index)), Created(s, index, value);
    assert ExplainsNext(d, s, t, index);
    forall id ensures Explains(d', s', t, id) {
      assert Explains(d, s, t, id);
    }
    forall k ensures ExplainsNext(d', s', t, k) {
      assert ExplainsNext(d, s, t, k);
    }
  }

  lemma ModifyReverts<V>(d: Diff<V>, s: Store<V>, t: Store<V>, id: ObjectId, value: V)
    requires Reverts(d, s, t) && id in s.objects
    ensures Reverts(RecordModify(d, id, s.objects[id]), Modified(s, id, value), t)
  {
    var d', s' := RecordModify(d, id, s.objects[id]), Modified(s, id, value);
    forall x ensures Explains(d', s', t, x) {
      assert Explains(d, s, t, x);
    }
    forall k ensures ExplainsNext(d', s', t, k) {
      assert ExplainsNext(d, s, t, k);
    }
  }

  lemma RemoveReverts<V>(d: Diff<V>, s: Store<V>, t: Store<V>, id: ObjectId)
    requires Reverts(d, s, t) && id in s.objects
    ensures Reverts(RecordRemove(d, id, s.objects[id]), Removed(s, id), t)
  {
    var d', s' := RecordRemove(d, id, s.objects[id]), Removed(s, id);
    forall x ensures Explains(d', s', t, x) {
      assert Explains(d, s, t, x);
    }
    forall k ensures ExplainsNext(d', s', t, k) {
      assert ExplainsNext(d, s, t, k);
    }
  }

  datatype Cell<V> = NotApplicable | Cell(entry: Entry<V>)

  /** The table of all outer/inner combinations, as the design states it. */
  function Compose<V>(a: Entry<V>, b: Entry<V>): Cell<V> {
    match (a, b)
    case (_, Nop) => Cell(a)
    case (Nop, _) => Cell(b)
    case (New, Upd(_)) => Cell(New)
    case (New, Del(_)) => Cell(Nop)
    case (Upd(x), Upd(_)) => Cell(Upd(x))
    case (Upd(x), Del(_)) => Cell(Del(x))
    case (_, _) => NotApplicable
  }

  /** Causal timing rules the N/A cells out whenever the two diffs follow each other. */
  lemma NoImpossibleCell<V>(a: Diff<V>, b: Diff<V>, s: Store<V>, m: Store<V>, t: Store<V>, id: ObjectId)
    requires Reverts(b, s, m) && Reverts(a, m, t)
    ensures Compose(EntryOf(a, id), EntryOf(b, id)).Cell?
  {
    assert Explains(b, s, m, id) && Explains(a, m, t, id);
    assert ExplainsNext(a, m, t, id.index);
  }

  /** Merging implements the table on every object. */
  lemma MergeFollowsTable<V>(a: Diff<V>, b: Diff<V>, s: Store<V>, m: Store<V>, t: Store<V>, id: ObjectId)
    requires Reverts(b, s, m) && Reverts(a, m, t)
    ensures Compose(EntryOf(a, id), EntryOf(b, id)) == Cell(EntryOf(Merge(a, b), id))
    ensures Disjoint(Merge(a, b), id)
  {
    NoImpossibleCell(a, b, s, m, t, id);
    assert Disjoint(a, id) && Disjoint(b, id) by {
      assert Explains(b, s, m, id) && Explains(a, m, t, id);
    }
  }

  /** The merged diff leads straight from the inner state to the outer snapshot. */
  lemma MergeReverts<V>(a: Diff<V>, b: Diff<V>, s: Store<V>, m: Store<V>, t: Store<V>)
    requires Reverts(b, s, m) && Reverts(a, m, t)
    ensures Reverts(Merge(a, b), s, t)
  {
    forall id ensures Explains(Merge(a, b), s, t, id) {
      MergeFollowsTable(a, b, s, m, t, id);
      assert Explains(b, s, m, id) && Explains(a, m, t, id);
      assert ExplainsNext(a, m, t, id.index);
    }
    forall k ensures ExplainsNext(Merge(a, b), s, t, k) {
      assert ExplainsNext(b, s, m, k) && ExplainsNext(a, m, t, k);
    }
  }
}
