/** Whole runs of the storage: what the history of issued ids looks like. */
module StorageRuns {
  import opened Types
  import opened Storage

  /** One call. Each says which objects were live while it ran, so that a run covers every way
      in which objects may expire between the calls. */
  datatype Event =
    | Add(item: Obj, live: set<Obj>)
    | Remove(id: Id)
    | PurgeExpired(live: set<Obj>)

  /** An allocation: the sweep position it took and the ids it saw occupied. */
  datatype Issue = Issue(position: nat, occupied: set<Id>)

  ghost function Step(s: State, e: Event): (s': State)
    requires s.WellFormed()
    ensures s'.WellFormed() && s'.maxCount == s.maxCount
  {
    match e
    case Add(item, live) =>
      AddKeepsWellFormed(s, item, live);
      Storage.Add(s, item, live).0
    case Remove(id) => Storage.Remove(s, id)
    case PurgeExpired(live) => Storage.PurgeExpired(s, live)
  }

  ghost function Run(s: State, es: seq<Event>): (s': State)
    requires s.WellFormed()
    ensures s'.WellFormed() && s'.maxCount == s.maxCount
  {
    if es == [] then s else Step(Run(s, es[..|es| - 1]), es[|es| - 1])
  }

  ghost function IssueOf(s: State, e: Event): seq<Issue>
    requires s.WellFormed()
  {
    if e.Add? && Allocates(s, e.item, e.live) && s.maxCount > 0
    then [Issue(AllocatedAt(s, e.live), Settled(s, e.live).Keys)]
    else []
  }

  /** All allocations of a run, in order. */
  ghost function Issues(s: State, es: seq<Event>): seq<Issue>
    requires s.WellFormed()
  {
    if es == [] then []
    else Issues(s, es[..|es| - 1]) + IssueOf(Run(s, es[..|es| - 1]), es[|es| - 1])
  }

  /** The position at which the search for issue `i` started. */
  ghost function SearchedFrom(h: seq<Issue>, i: nat): nat
    requires i <= |h|
  {
    if i == 0 then 0 else h[i - 1].position + 1
  }

  ghost predicate TookFirstFree(h: seq<Issue>, n: nat, i: nat)
    requires n > 0 && i < |h|
  {
    FirstFree(h[i].occupied, n, SearchedFrom(h, i), h[i].position)
  }

  /** The history is one sweep: each issue goes to the first position past the previous issue
      whose id was free at that moment, and `end` is where the next search starts. */
  ghost predicate IsSweep(h: seq<Issue>, n: nat, end: nat) {
    && (h != [] ==> n > 0)
    && end == SearchedFrom(h, |h|)
    && (forall i | 0 <= i < |h| :: TookFirstFree(h, n, i))
  }

  /** Main result: over every run the issued ids are one sweep over the id range. */
  lemma {:induction false} IssuesAreASweep(n: nat, es: seq<Event>)
    requires n <= INVALID_ID
    ensures IsSweep(Issues(Empty(n), es), n, Run(Empty(n), es).position)
    ensures forall i | 0 <= i < |Issues(Empty(n), es)| && i < n :: Issues(Empty(n), es)[i].position == i
  {
    if es != [] {
      var before := es[..|es| - 1];
      var e := es[|es| - 1];
      var s := Run(Empty(n), before);
      var h := Issues(Empty(n), before);
      IssuesAreASweep(n, before);
      if IssueOf(s, e) != [] {
        AllocationIsFresh(s, e.item, e.live);
        SweepGrows(h, n, s.position, IssueOf(s, e)[0]);
        if |h| < n {
          if h != [] { assert h[|h| - 1].position == |h| - 1; }
          CounterModeNeedsNoScan(s, e.item, e.live);
        }
      } else {
        assert Issues(Empty(n), es) == h;
        SettledFits(s, if e.Add? then e.live else {});
      }
    }
  }

  lemma SweepGrows(h: seq<Issue>, n: nat, end: nat, next: Issue)
    requires n > 0 && IsSweep(h, n, end) && FirstFree(next.occupied, n, end, next.position)
    ensures IsSweep(h + [next], n, next.position + 1)
  {
    var g := h + [next];
    forall i | 0 <= i < |g| ensures TookFirstFree(g, n, i) {
      if i < |h| {
        assert TookFirstFree(h, n, i);
        assert g[i] == h[i] && SearchedFrom(g, i) == SearchedFrom(h, i);
      } else {
        assert SearchedFrom(g, i) == SearchedFrom(h, |h|);
      }
    }
  }

  lemma {:induction false} PositionsIncrease(h: seq<Issue>, n: nat, end: nat, i: nat, j: nat)
    requires IsSweep(h, n, end) && i < j < |h|
    ensures h[i].position < h[j].position
    decreases j
  {
    assert TookFirstFree(h, n, j);
    if i < j - 1 { PositionsIncrease(h, n, end, i, j - 1); }
  }

  /** Issue `m` took position `k`, or saw the id of position `k` occupied on its way. */
  ghost predicate Covers(h: seq<Issue>, n: nat, m: nat, k: nat)
    requires m < |h| && n > 0
  {
    k == h[m].position || (SearchedFrom(h, m) <= k < h[m].position && IdAt(n, k) in h[m].occupied)
  }

  /** Every position between two issues was taken or seen occupied by one of the issues between. */
  lemma {:induction false} NoPositionIsMissed(h: seq<Issue>, n: nat, end: nat, i: nat, j: nat, k: nat)
    returns (m: nat)
    requires IsSweep(h, n, end) && i < j < |h| && h[i].position < k < h[j].position
    ensures i < m <= j && Covers(h, n, m, k)
    decreases j
  {
    assert TookFirstFree(h, n, j);
    if SearchedFrom(h, j) <= k {
      m := j;
    } else if k == h[j - 1].position {
      m := j - 1;
    } else {
      m := NoPositionIsMissed(h, n, end, i, j - 1, k);
    }
  }

  /** Main result: an id comes back only after a full sweep. Between two issues of the same id,
      every other id of the range was itself issued or was seen occupied. */
  lemma IdReuseIsAFullSweep(n: nat, es: seq<Event>, i: nat, j: nat, other: Id) returns (m: nat, k: nat)
    requires 0 < n <= INVALID_ID
    requires i < j < |Issues(Empty(n), es)|
    requires IdAt(n, Issues(Empty(n), es)[i].position) == IdAt(n, Issues(Empty(n), es)[j].position)
    requires other < n && other != IdAt(n, Issues(Empty(n), es)[i].position)
    ensures i < m <= j && IdAt(n, k) == other && Covers(Issues(Empty(n), es), n, m, k)
    ensures m == j ==> other in Issues(Empty(n), es)[j].occupied
  {
    var h := Issues(Empty(n), es);
    var end := Run(Empty(n), es).position;
    IssuesAreASweep(n, es);
    PositionsIncrease(h, n, end, i, j);
    SameIdIsSweepApart(h[i].position, h[j].position, n);
    k := SweepMeets(other, n, h[i].position + 1);
    assert k != h[i].position + n;
    m := NoPositionIsMissed(h, n, end, i, j, k);
  }

  /** Main result: across all adds and removes, the first `n` issues carry pairwise distinct ids. */
  lemma FirstSweepIsDistinct(n: nat, es: seq<Event>, i: nat, j: nat)
    requires n <= INVALID_ID && i < j < n && j < |Issues(Empty(n), es)|
    ensures IdAt(n, Issues(Empty(n), es)[i].position) != IdAt(n, Issues(Empty(n), es)[j].position)
  {
    IssuesAreASweep(n, es);
  }

  /** The events leave the object alone: it is live in each, and its id is not removed. */
  ghost predicate Keeps(es: seq<Event>, item: Obj, id: Id) {
    forall e | e in es ::
      match e
      case Add(_, live) => item in live
      case Remove(removed) => removed != id
      case PurgeExpired(live) => item in live
  }

  /** Main result: `get(add(o))` is `o` after any further calls, until `o` is removed or dies. */
  lemma {:induction false} StoredUntilRemoved(s: State, item: Obj, live: set<Obj>, es: seq<Event>)
    requires s.WellFormed() && item in live
    requires Storage.Add(s, item, live).1 != INVALID_ID
    requires Keeps(es, item, Storage.Add(s, item, live).1)
    ensures Stores(Run(Step(s, Add(item, live)), es).objects, Storage.Add(s, item, live).1, item)
  {
    var id := Storage.Add(s, item, live).1;
    var first := Step(s, Add(item, live));
    if es == [] {
      AddKeepsLiveEntries(s, item, live);
    } else {
      var before := es[..|es| - 1];
      var e := es[|es| - 1];
      assert e in es && forall x | x in before :: x in es;
      StoredUntilRemoved(s, item, live, before);
      if e.Add? { AddKeepsLiveEntries(Run(first, before), e.item, e.live); }
    }
  }
}
