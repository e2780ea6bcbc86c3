/** The class `UniqueIdObjectStorage`, proved against the value model in `Storage`. */
module UniqueIdObjectStorages {
  import opened Types
  import Storage

  class UniqueIdObjectStorage {
    const maxCount: nat
    var objects: map<Id, Obj>
    var counter: nat
    var overflowed: bool
    /** How many slots the counter has moved past: see `Storage.State`. */
    ghost var position: nat

    ghost function State(): Storage.State
      reads this
    {
      Storage.State(maxCount, objects, position)
    }

    ghost predicate Valid()
      reads this
    {
      && State().WellFormed()
      && (maxCount > 0 ==> counter == Storage.IdAt(maxCount, position) && (overflowed <==> position >= maxCount))
    }

    constructor (maxCount: nat)
      requires maxCount <= INVALID_ID
      ensures Valid() && State() == Storage.Empty(maxCount)
    {
      this.maxCount := maxCount;
      objects, counter, overflowed, position := map[], 0, false, 0;
    }

    /** The capacity and overflow tests, the lookup in hash order, then the allocation. */
    method Add(item: Obj, live: set<Obj>) returns (id: Id)
      requires Valid()
      modifies this
      ensures Valid()
      ensures (State(), id) == Storage.Add(old(State()), item, live)
    {
      ghost var before := State();
      if item !in live {
        return INVALID_ID;
      }
      if |objects| == maxCount {
        PurgeExpired(live);
        if |objects| == maxCount {
          Storage.AddWhenFull(before, item, live);
          return INVALID_ID;
        }
      }
      ghost var settled := Storage.Settled(before, live);
      assert State() == before.(objects := settled) && |settled| != maxCount;
      var found, already := FindId(item, live);
      if found {
        Storage.AddWhenStored(before, item, live, already);
        return already;
      }
      assert Storage.Allocates(before, item, live);
      Storage.SettledFits(before, live);
      id := GetUniqueId();
      Storage.AddWhenNew(before, item, live, position - 1);
      assert (before.(objects := settled[id := item], position := position), id) == Storage.Add(before, item, live);
      objects := objects[id := item];
    }

    /** The search for an entry of the object. The hash map may be walked in any order: as one
        object occupies one id at most, the order cannot change the answer. */
    method FindId(item: Obj, live: set<Obj>) returns (found: bool, id: Id)
      requires Valid() && item in live
      ensures found <==> exists i :: Storage.Stores(objects, i, item)
      ensures found ==> forall i :: Storage.Stores(objects, i, item) <==> i == id
    {
      var rest := objects.Keys;
      while rest != {}
        invariant rest <= objects.Keys
        invariant forall i | i in objects && i !in rest :: objects[i] != item
      {
        var next :| next in rest;
        if objects[next] in live && objects[next] == item {
          assert Storage.Stores(objects, next, item);
          return true, next;
        }
        rest := rest - {next};
      }
      return false, INVALID_ID;
    }

    method Remove(id: Id)
      requires Valid()
      modifies this
      ensures Valid()
      ensures State() == Storage.Remove(old(State()), id)
    {
      objects := objects - {id};
    }

    /** `get(id).lock()`. */
    method Get(id: Id, live: set<Obj>) returns (item: Option<Obj>)
      ensures item == Storage.Lock(State(), id, live)
    {
      if id in objects {
        return if objects[id] in live then Some(objects[id]) else None;
      }
      return None;
    }

    method PurgeExpired(live: set<Obj>)
      requires Valid()
      modifies `objects
      ensures Valid()
      ensures State() == Storage.PurgeExpired(old(State()), live)
      ensures objects.Keys == set i | i in old(objects) && old(objects)[i] in live
    {
      var rest := objects.Keys;
      while rest != {}
        invariant rest <= old(objects).Keys
        invariant forall i :: i in objects <==> i in old(objects) && (i in rest || old(objects)[i] in live)
        invariant forall i | i in objects :: objects[i] == old(objects)[i]
        invariant Valid()
      {
        var next :| next in rest;
        if objects[next] !in live {
          objects := objects - {next};
        }
        rest := rest - {next};
      }
    }

    /** The next id of the sweep: the counter while it has not overflowed, then the search. */
    method GetUniqueId() returns (id: Id)
      requires Valid() && |objects| < maxCount
      modifies `counter, `overflowed, `position
      ensures Valid()
      ensures old(position) < position <= old(position) + maxCount
      ensures Storage.FirstFree(objects.Keys, maxCount, old(position), position - 1)
      ensures id == Storage.IdAt(maxCount, position - 1)
    {
      if !overflowed {
        id := counter;
        Storage.WellFormedLater(State(), position + 1);
        Storage.NextId(maxCount, position);
        counter, position := counter + 1, position + 1;
        if counter == maxCount {
          counter := 0;
          overflowed := true;
        }
      } else {
        id := SearchUnusedId();
      }
    }

    /** Moves the counter to the next id, back to 0 at the end of the range. */
    method AdvanceCounter()
      requires maxCount > 0 && counter == Storage.IdAt(maxCount, position)
      modifies `counter, `position
      ensures position == old(position) + 1 && counter == Storage.IdAt(maxCount, position)
    {
      Storage.NextId(maxCount, position);
      counter, position := counter + 1, position + 1;
      if counter == maxCount {
        counter := 0;
      }
    }

    /** The search after the overflow. With room left, neither of the two give-up returns inside
        the loop can be reached, and the loop stops within one sweep. */
    method SearchUnusedId() returns (id: Id)
      requires Valid() && |objects| < maxCount && overflowed
      modifies `counter, `position
      ensures Valid()
      ensures old(position) < position <= old(position) + maxCount
      ensures Storage.FirstFree(objects.Keys, maxCount, old(position), position - 1)
      ensures id == Storage.IdAt(maxCount, position - 1)
    {
      ghost var before := State();
      ghost var occupied, start := objects.Keys, position;
      assert |occupied| == |objects|;
      var startId := counter;
      while counter in objects
        invariant objects == before.objects && counter == Storage.IdAt(maxCount, position)
        invariant start <= position < start + maxCount
        invariant forall k | start <= k < position :: Storage.IdAt(maxCount, k) in occupied
        decreases start + maxCount - position
      {
        if |objects| == maxCount { assert false; }
        AdvanceCounter();
        Storage.ScanHasNotComeRound(occupied, maxCount, start, position);
        if counter == startId { assert false; }
      }
      id := counter;
      AdvanceCounter();
      Storage.WellFormedLater(before, position);
    }
  }
}
