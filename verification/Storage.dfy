/** `UniqueIdObjectStorage`: a bounded allocator of ids for weakly held objects. */
module Storage {
  import opened Types

  /** The storage as a value. `position` is the unbounded sweep position: the number of slots
      the allocation counter has moved past since the storage was created. The real counter is
      `position % maxCount` and the real overflow flag says whether `position >= maxCount`. */
  datatype State = State(maxCount: nat, objects: map<Id, Obj>, position: nat) {

    ghost predicate WellFormed() {
      && maxCount <= INVALID_ID
      && (forall id | id in objects :: id < maxCount && id < position)
      && Injective(objects)
    }
  }

  function Empty(maxCount: nat): State {
    State(maxCount, map[], 0)
  }

  /** Every stored object occupies one id only. */
  ghost predicate Injective(objects: map<Id, Obj>) {
    forall i, j | i in objects && j in objects && objects[i] == objects[j] :: i == j
  }

  /** What remains when the expired entries are erased. */
  function Purged(objects: map<Id, Obj>, live: set<Obj>): map<Id, Obj> {
    map id | id in objects && objects[id] in live :: objects[id]
  }

  ghost predicate Stores(objects: map<Id, Obj>, id: Id, item: Obj) {
    id in objects && objects[id] == item
  }

  /** The id that a sweep position names: `position % n`, as `IdAtIsMod` says, in a form that needs
      no reasoning about division. */
  function IdAt(n: nat, position: nat): (id: Id)
    requires n > 0
    ensures id < n && id <= position
    ensures position < n ==> id == position
  {
    if position < n then position else IdAt(n, position - n)
  }

  /** `q` is the first sweep position at or after `p` whose id is unoccupied. */
  ghost predicate FirstFree(occupied: set<Id>, n: nat, p: nat, q: nat)
    requires n > 0
  {
    && p <= q
    && IdAt(n, q) !in occupied
    && (forall k | p <= k < q :: IdAt(n, k) in occupied)
  }

  // ----- The sweep -----

  lemma {:induction false} IdAtIsMod(n: nat, position: nat)
    requires n > 0
    ensures IdAt(n, position) == position % n
  {
    if position >= n {
      var x := position - n;
      IdAtIsMod(n, x);
      assert x == n * (x / n) + x % n;
      assert position == n * (x / n + 1) + x % n;
      ModUnique(position, x / n + 1, x % n, n);
    } else {
      ModUnique(position, 0, position, n);
    }
  }

  lemma MultipleGap(n: int, d: int)
    requires n >= 0
    ensures d >= 1 ==> n * d >= n
    ensures d <= -1 ==> n * d <= -n
  {
  }

  lemma ModUnique(x: nat, q: nat, r: nat, n: nat)
    requires n > 0 && r < n && x == n * q + r
    ensures x % n == r
  {
    var d := x / n - q;
    assert x == n * (x / n) + x % n;
    assert n * d == n * (x / n) - n * q;
    MultipleGap(n, d);
  }

  /** The counter's successor, with its wrap to 0. */
  lemma {:induction false} NextId(n: nat, p: nat)
    requires n > 0
    ensures IdAt(n, p + 1) == if IdAt(n, p) + 1 == n then 0 else IdAt(n, p) + 1
  {
    if p >= n { NextId(n, p - n); }
  }

  /** The sweep meets every id within any `n` consecutive positions. */
  lemma {:induction false} SweepMeets(id: Id, n: nat, p: nat) returns (k: nat)
    requires id < n
    ensures p <= k < p + n && IdAt(n, k) == id
  {
    if p >= n {
      k := SweepMeets(id, n, p - n);
      k := k + n;
    } else if p <= id {
      k := id;
    } else {
      k := id + n;
    }
  }

  /** Positions naming the same id are a whole sweep apart. */
  lemma {:induction false} SameIdIsSweepApart(i: nat, j: nat, n: nat)
    requires n > 0 && i < j && IdAt(n, i) == IdAt(n, j)
    ensures i + n <= j
  {
    if i >= n { SameIdIsSweepApart(i - n, j - n, n); }
  }

  /** The ids below a bound. */
  function Ids(n: nat): (ids: set<Id>)
    ensures |ids| == n
    ensures forall i: nat :: i in ids <==> i < n
  {
    if n == 0 then {} else Ids(n - 1) + {n - 1}
  }

  lemma {:induction false} SubsetIsSmaller(a: set<Id>, b: set<Id>)
    requires a <= b
    ensures |a| <= |b|
    ensures a != b ==> |a| < |b|
  {
    assert b == a + (b - a);
    assert |b| == |a| + |b - a|;
    if a != b { assert b - a != {}; }
  }

  /** Ids below `maxCount` cannot all be occupied by fewer than `maxCount` entries. */
  lemma Pigeonhole(occupied: set<Id>, n: nat, p: nat)
    requires forall k | p <= k < p + n :: IdAt(n, k) in occupied
    ensures |occupied| >= n
  {
    forall id: nat | id < n ensures id in occupied {
      var k := SweepMeets(id, n, p);
    }
    SubsetIsSmaller(Ids(n), occupied);
  }

  /** A scan that met only occupied ids has not come round to where it started. */
  lemma ScanHasNotComeRound(occupied: set<Id>, n: nat, p: nat, q: nat)
    requires |occupied| < n && p < q <= p + n
    requires forall k | p <= k < q :: IdAt(n, k) in occupied
    ensures q < p + n && IdAt(n, q) != IdAt(n, p)
  {
    if q == p + n { Pigeonhole(occupied, n, p); }
    if IdAt(n, q) == IdAt(n, p) { SameIdIsSweepApart(p, q, n); }
  }

  // ----- The operations on values -----

  /** The next position the cyclic scan stops at, or `p + budget` when it met only occupied ids. */
  function Scan(occupied: set<Id>, n: nat, p: nat, budget: nat): (q: nat)
    requires n > 0
    ensures p <= q <= p + budget
    ensures forall k | p <= k < q :: IdAt(n, k) in occupied
    ensures q < p + budget ==> IdAt(n, q) !in occupied
    decreases budget
  {
    if budget == 0 || IdAt(n, p) !in occupied then p else Scan(occupied, n, p + 1, budget - 1)
  }

  /** The scan of a storage that is not full stops at a free id within one sweep. */
  lemma ScanFinds(occupied: set<Id>, n: nat, p: nat)
    requires |occupied| < n
    ensures Scan(occupied, n, p, n) < p + n
    ensures FirstFree(occupied, n, p, Scan(occupied, n, p, n))
  {
    if Scan(occupied, n, p, n) == p + n {
      Pigeonhole(occupied, n, p);
    }
  }

  lemma FirstFreeIsUnique(occupied: set<Id>, n: nat, p: nat, q: nat, r: nat)
    requires n > 0 && FirstFree(occupied, n, p, q) && FirstFree(occupied, n, p, r)
    ensures q == r
  {
  }

  /** The entries `add` works on: purged when the storage looked full. */
  function Settled(s: State, live: set<Obj>): map<Id, Obj> {
    if |s.objects| == s.maxCount then Purged(s.objects, live) else s.objects
  }

  lemma PurgedKeepsLive(objects: map<Id, Obj>, live: set<Obj>)
    ensures |Purged(objects, live)| <= |objects|
    ensures |Purged(objects, live)| == |objects| ==> Purged(objects, live) == objects
  {
    var kept := Purged(objects, live);
    SubsetIsSmaller(kept.Keys, objects.Keys);
    assert |kept.Keys| == |kept| && |objects.Keys| == |objects|;
  }

  /** A well-formed storage never holds more than `maxCount` entries. */
  lemma NeverOverfull(s: State)
    requires s.WellFormed()
    ensures |s.objects| <= s.maxCount
  {
    SubsetIsSmaller(s.objects.Keys, Ids(s.maxCount));
    assert |s.objects.Keys| == |s.objects|;
  }

  lemma SettledFits(s: State, live: set<Obj>)
    requires s.WellFormed()
    ensures |Settled(s, live)| <= s.maxCount
    ensures |Settled(s, live)| == |Settled(s, live).Keys|
    ensures |Settled(s, live)| == s.maxCount ==> Settled(s, live) == s.objects
  {
    NeverOverfull(s);
    PurgedKeepsLive(s.objects, live);
  }

  /** `add` reaches the allocation: the object is live, there is room, and it is not stored. */
  ghost predicate Allocates(s: State, item: Obj, live: set<Obj>) {
    && item in live
    && |Settled(s, live)| != s.maxCount
    && !exists id :: Stores(Settled(s, live), id, item)
  }

  ghost function AllocatedAt(s: State, live: set<Obj>): nat
    requires s.maxCount > 0
  {
    Scan(Settled(s, live).Keys, s.maxCount, s.position, s.maxCount)
  }

  /** `add`: the storage afterwards and the id returned. */
  ghost function Add(s: State, item: Obj, live: set<Obj>): (State, Id)
    requires s.WellFormed()
  {
    var stored := Settled(s, live);
    if item !in live then (s, INVALID_ID)
    else if |stored| == s.maxCount then (s, INVALID_ID)
    else if id: Id :| Stores(stored, id, item) then (s.(objects := stored), id)
    else
      SettledFits(s, live);
      var q := AllocatedAt(s, live);
      (State(s.maxCount, stored[IdAt(s.maxCount, q) := item], q + 1), IdAt(s.maxCount, q))
  }

  /** `remove`. */
  function Remove(s: State, id: Id): State {
    s.(objects := s.objects - {id})
  }

  /** `purgeExpired`. */
  function PurgeExpired(s: State, live: set<Obj>): State {
    s.(objects := Purged(s.objects, live))
  }

  /** `get(id).lock()`: the live object stored under an id. */
  function Lock(s: State, id: Id, live: set<Obj>): Option<Obj> {
    if id in s.objects && s.objects[id] in live then Some(s.objects[id]) else None
  }

  // ----- What the operations promise -----

  /** `add` refuses exactly dead objects and storages full of live ones; the give-up returns
      of the id search are never what refuses. */
  lemma AddRefusesIffFull(s: State, item: Obj, live: set<Obj>)
    requires s.WellFormed()
    ensures Add(s, item, live).1 == INVALID_ID <==> item !in live || IsFullOfLive(s, live)
    ensures Add(s, item, live).1 == INVALID_ID <==>
            item !in live || |Purged(s.objects, live)| == s.maxCount
    ensures Add(s, item, live).1 == INVALID_ID ==> Add(s, item, live).0 == s
  {
    NeverOverfull(s);
    PurgedKeepsLive(s.objects, live);
    SettledFits(s, live);
    AddKeepsWellFormed(s, item, live);
    PurgedIsAllIffAllLive(s.objects, live);
  }

  /** All slots are taken, by live objects. */
  ghost predicate IsFullOfLive(s: State, live: set<Obj>) {
    |s.objects| == s.maxCount && forall id | id in s.objects :: s.objects[id] in live
  }

  lemma PurgedIsAllIffAllLive(objects: map<Id, Obj>, live: set<Obj>)
    ensures |Purged(objects, live)| == |objects| <==> forall id | id in objects :: objects[id] in live
  {
    PurgedKeepsLive(objects, live);
    if forall id | id in objects :: objects[id] in live { assert Purged(objects, live) == objects; }
  }

  /** Purging removes exactly the expired entries. */
  lemma PurgingKeepsExactlyTheLive(s: State, live: set<Obj>)
    ensures forall id, o :: Stores(PurgeExpired(s, live).objects, id, o) <==> Stores(s.objects, id, o) && o in live
    ensures PurgeExpired(s, live).maxCount == s.maxCount && PurgeExpired(s, live).position == s.position
  {
  }

  /** `add` removes the expired entries exactly when all slots are taken. */
  lemma AddPurgesIffFull(s: State, item: Obj, live: set<Obj>)
    requires s.WellFormed() && Add(s, item, live).1 != INVALID_ID
    ensures var (s', id) := Add(s, item, live);
            forall i | i in s.objects && i != id ::
              i in s'.objects <==> |s.objects| < s.maxCount || s.objects[i] in live
  {
    NeverOverfull(s);
    SettledFits(s, live);
    AddRefusesIffFull(s, item, live);
    if Allocates(s, item, live) { AllocationIsFresh(s, item, live); }
  }

  /** `remove` frees one id; `get` finds the live object stored under an id, and nothing else. */
  lemma RemoveFreesOneId(s: State, id: Id)
    ensures forall i, o :: Stores(Remove(s, id).objects, i, o) <==> Stores(s.objects, i, o) && i != id
    ensures Remove(s, id).maxCount == s.maxCount && Remove(s, id).position == s.position
  {
  }

  lemma GetFindsTheLive(s: State, id: Id, live: set<Obj>, o: Obj)
    ensures Lock(s, id, live) == Some(o) <==> Stores(s.objects, id, o) && o in live
  {
  }

  /** Adding keeps the storage well formed, in particular one id per object. */
  lemma AddKeepsWellFormed(s: State, item: Obj, live: set<Obj>)
    requires s.WellFormed()
    ensures Add(s, item, live).0.WellFormed()
    ensures item in live && |Settled(s, live)| != s.maxCount ==> Add(s, item, live).1 < s.maxCount
  {
    SettledFits(s, live);
    if Allocates(s, item, live) {
      var q := AllocatedAt(s, live);
      ScanFinds(Settled(s, live).Keys, s.maxCount, s.position);
      forall i | i in Settled(s, live) ensures Settled(s, live)[i] != item {
        assert !Stores(Settled(s, live), i, item);
      }
    }
  }

  /** A fresh id was free, and allocation writes that entry and nothing else. */
  lemma AllocationIsFresh(s: State, item: Obj, live: set<Obj>)
    requires s.WellFormed() && Allocates(s, item, live)
    ensures var q := AllocatedAt(s, live); var (s', id) := Add(s, item, live);
            && FirstFree(Settled(s, live).Keys, s.maxCount, s.position, q)
            && q < s.position + s.maxCount
            && id == IdAt(s.maxCount, q) && id !in Settled(s, live)
            && s'.position == q + 1
            && s'.objects == Settled(s, live)[id := item]
  {
    SettledFits(s, live);
    ScanFinds(Settled(s, live).Keys, s.maxCount, s.position);
  }

  /** The three ways `add` of a live object can go, as the class takes them. */
  lemma AddWhenFull(s: State, item: Obj, live: set<Obj>)
    requires s.WellFormed() && item in live && |Settled(s, live)| == s.maxCount
    ensures Add(s, item, live) == (s, INVALID_ID) && Settled(s, live) == s.objects
  {
    SettledFits(s, live);
  }

  lemma AddWhenStored(s: State, item: Obj, live: set<Obj>, id: Id)
    requires s.WellFormed() && item in live && |Settled(s, live)| != s.maxCount
    requires Stores(Settled(s, live), id, item)
    ensures Add(s, item, live) == (s.(objects := Settled(s, live)), id)
  {
  }

  lemma AddWhenNew(s: State, item: Obj, live: set<Obj>, q: nat)
    requires s.WellFormed() && Allocates(s, item, live)
    requires s.maxCount > 0 && FirstFree(Settled(s, live).Keys, s.maxCount, s.position, q)
    ensures Add(s, item, live) ==
            (State(s.maxCount, Settled(s, live)[IdAt(s.maxCount, q) := item], q + 1), IdAt(s.maxCount, q))
    ensures Add(s, item, live).0.WellFormed()
  {
    AllocationIsFresh(s, item, live);
    AddKeepsWellFormed(s, item, live);
    FirstFreeIsUnique(Settled(s, live).Keys, s.maxCount, s.position, q, AllocatedAt(s, live));
  }

  /** Moving the sweep forward keeps a storage well formed. */
  lemma WellFormedLater(s: State, position: nat)
    requires s.WellFormed() && position >= s.position
    ensures s.(position := position).WellFormed()
  {
  }

  /** Before the overflow the counter alone is right: the sweep never has to skip an id. */
  lemma CounterModeNeedsNoScan(s: State, item: Obj, live: set<Obj>)
    requires s.WellFormed() && Allocates(s, item, live) && s.position < s.maxCount
    ensures AllocatedAt(s, live) == s.position
    ensures Add(s, item, live).1 == s.position
  {
  }

  /** Every live entry survives an `add`, and nothing appears but the added object. */
  lemma AddKeepsLiveEntries(s: State, item: Obj, live: set<Obj>)
    requires s.WellFormed()
    ensures var (s', id) := Add(s, item, live);
            && (id != INVALID_ID ==> Lock(s', id, live) == Some(item))
            && (forall i | i in s.objects && s.objects[i] in live :: Stores(s'.objects, i, s.objects[i]))
            && (forall i | i in s'.objects && i != id :: Stores(s.objects, i, s'.objects[i]))
  {
    SettledFits(s, live);
    AddKeepsWellFormed(s, item, live);
    if Allocates(s, item, live) { AllocationIsFresh(s, item, live); }
  }

  /** An object already stored gets its own id back exactly when the storage is not full of
      live objects; at full capacity the code answers the invalid id instead. */
  lemma ReAddReturnsItsId(s: State, item: Obj, live: set<Obj>, id: Id)
    requires s.WellFormed() && item in live && Stores(s.objects, id, item)
    ensures Add(s, item, live).1 == id <==> !IsFullOfLive(s, live)
    ensures Add(s, item, live).1 == id || Add(s, item, live) == (s, INVALID_ID)
  {
    SettledFits(s, live);
    AddRefusesIffFull(s, item, live);
    assert Stores(Settled(s, live), id, item);
    assert id < s.maxCount;
  }

  /** So a storage of one slot does not give its only object the id it has. */
  lemma ReAddAtCapacityIsRefused()
    ensures var (s, id) := Add(Empty(1), 7, {7});
            && Stores(s.objects, 0, 7) && id == 0
            && Add(s, 7, {7}) == (s, INVALID_ID)
  {
    AddWhenNew(Empty(1), 7, {7}, 0);
    var (s, id) := Add(Empty(1), 7, {7});
    assert Purged(s.objects, {7}) == s.objects;
    AddWhenFull(s, 7, {7});
  }

  /** And a second object gets the invalid id. */
  lemma FullStorageRefuses()
    ensures var (s, id) := Add(Empty(1), 7, {7, 8});
            id == 0 && Add(s, 8, {7, 8}) == (s, INVALID_ID)
  {
    AddWhenNew(Empty(1), 7, {7, 8}, 0);
    var (s, id) := Add(Empty(1), 7, {7, 8});
    assert Purged(s.objects, {7, 8}) == s.objects;
    AddWhenFull(s, 8, {7, 8});
  }

  /** Whatever is stored and wherever the search starts, the id it returns is not the invalid one,
      exactly if there are no more slots than ids below the invalid one. */
  lemma IssuedIdsAreNeverInvalid(n: nat)
    requires n > 0
    ensures (forall occupied: set<Id>, p: nat | |occupied| < n :: IdAt(n, Scan(occupied, n, p, n)) != INVALID_ID) <==>
            n <= INVALID_ID
  {
    if INVALID_ID < n {
      var none: set<Id> := {};
      assert |none| < n && Scan(none, n, INVALID_ID, n) == INVALID_ID;
    }
  }
}
