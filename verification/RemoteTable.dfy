/** The entries of `RemoteRegistry` as a value: a relation between objects and node ids. */
module RemoteTable {
  import opened Types

  /** `SourceToNodesEntry`. */
  datatype Entry = Entry(source: Option<Obj>, nodes: seq<Id>)

  type Table = map<string, Entry>

  /** `addSource` for a source named `objectId`. An expired source is not replaced. */
  function AddSource(t: Table, source: Obj, objectId: string, live: set<Obj>): Table {
    if source !in live || objectId in t then t else t[objectId := Entry(Some(source), [])]
  }

  function RemoveSource(t: Table, objectId: string): Table {
    t - {objectId}
  }

  /** `getSource(objectId).lock()`. */
  function SourceOf(t: Table, objectId: string, live: set<Obj>): Option<Obj> {
    if objectId in t && t[objectId].source.Some? && t[objectId].source.value in live
    then t[objectId].source else None
  }

  /** `addNodeForSource` for a node that is still alive. */
  function AddNode(t: Table, id: Id, objectId: string): Table {
    if objectId in t && id !in t[objectId].nodes
    then t[objectId := t[objectId].(nodes := t[objectId].nodes + [id])] else t
  }

  /** `erase` of the first match, if there is one. */
  function EraseFirst(nodes: seq<Id>, id: Id): seq<Id> {
    if nodes == [] then []
    else if nodes[0] == id then nodes[1..]
    else [nodes[0]] + EraseFirst(nodes[1..], id)
  }

  function RemoveNode(t: Table, id: Id, objectId: string): Table {
    if objectId in t then t[objectId := t[objectId].(nodes := EraseFirst(t[objectId].nodes, id))] else t
  }

  /** The part of `unregisterNode` that rewrites the entries. */
  function Release(t: Table, id: Id): Table {
    map objectId | objectId in t :: t[objectId].(nodes := EraseFirst(t[objectId].nodes, id))
  }

  /** The objects a node serves. */
  function Served(t: Table, id: Id): set<string> {
    set objectId | objectId in t && id in t[objectId].nodes
  }

  /** The node ids of an object, in list order. */
  function NodesOf(t: Table, objectId: string): seq<Id> {
    if objectId in t then t[objectId].nodes else []
  }

  // ----- The relation -----

  ghost predicate Linked(t: Table, id: Id, objectId: string) {
    id in NodesOf(t, objectId)
  }

  ghost predicate Distinct(nodes: seq<Id>) {
    forall i, j | 0 <= i < j < |nodes| :: nodes[i] != nodes[j]
  }

  /** Every node list is free of duplicates. */
  ghost predicate WellFormed(t: Table) {
    forall objectId | objectId in t :: Distinct(t[objectId].nodes)
  }

  /** Erasing the first match of a duplicate-free list deletes the id and keeps the rest in order. */
  lemma {:induction false} EraseFirstDeletes(nodes: seq<Id>, id: Id)
    requires Distinct(nodes)
    ensures Distinct(EraseFirst(nodes, id))
    ensures forall x :: x in EraseFirst(nodes, id) <==> x in nodes && x != id
    ensures id !in nodes ==> EraseFirst(nodes, id) == nodes
  {
    if nodes != [] {
      if nodes[0] == id {
        forall x | x in nodes && x != id ensures x in nodes[1..] {
          var i :| 0 <= i < |nodes| && nodes[i] == x;
          assert nodes[1..][i - 1] == x;
        }
      } else {
        EraseFirstDeletes(nodes[1..], id);
        var rest := EraseFirst(nodes[1..], id);
        assert nodes == [nodes[0]] + nodes[1..];
        forall i, j | 0 <= i < j < |[nodes[0]] + rest|
          ensures ([nodes[0]] + rest)[i] != ([nodes[0]] + rest)[j]
        {
          assert ([nodes[0]] + rest)[j] == rest[j - 1] && rest[j - 1] in rest;
          if i == 0 {
            var k :| 0 <= k < |nodes[1..]| && nodes[1..][k] == rest[j - 1];
            assert nodes[k + 1] == rest[j - 1];
          }
        }
      }
    }
  }

  /** Main result: each operation is the expected change of the relation, and keeps the lists
      duplicate-free. */
  lemma AddNodeAddsOnePair(t: Table, id: Id, objectId: string)
    requires WellFormed(t)
    ensures WellFormed(AddNode(t, id, objectId)) && AddNode(t, id, objectId).Keys == t.Keys
    ensures forall n, o :: Linked(AddNode(t, id, objectId), n, o) <==>
                           Linked(t, n, o) || (n == id && o == objectId && o in t)
  {
  }

  lemma RemoveNodeRemovesOnePair(t: Table, id: Id, objectId: string)
    requires WellFormed(t)
    ensures WellFormed(RemoveNode(t, id, objectId)) && RemoveNode(t, id, objectId).Keys == t.Keys
    ensures forall n, o :: Linked(RemoveNode(t, id, objectId), n, o) <==>
                           Linked(t, n, o) && !(n == id && o == objectId)
  {
    if objectId in t { EraseFirstDeletes(t[objectId].nodes, id); }
  }

  lemma ReleaseRemovesOneNode(t: Table, id: Id)
    requires WellFormed(t)
    ensures WellFormed(Release(t, id)) && Release(t, id).Keys == t.Keys
    ensures forall n, o :: Linked(Release(t, id), n, o) <==> Linked(t, n, o) && n != id
  {
    forall o | o in t
      ensures Distinct(Release(t, id)[o].nodes)
      ensures forall n :: n in Release(t, id)[o].nodes <==> n in t[o].nodes && n != id
    {
      EraseFirstDeletes(t[o].nodes, id);
    }
  }

  lemma RemoveSourceRemovesOneObject(t: Table, objectId: string)
    requires WellFormed(t)
    ensures WellFormed(RemoveSource(t, objectId))
    ensures forall n, o :: Linked(RemoveSource(t, objectId), n, o) <==> Linked(t, n, o) && o != objectId
  {
  }

  lemma AddSourceAddsNoPair(t: Table, source: Obj, objectId: string, live: set<Obj>)
    requires WellFormed(t)
    ensures WellFormed(AddSource(t, source, objectId, live))
    ensures forall n, o :: Linked(AddSource(t, source, objectId, live), n, o) <==> Linked(t, n, o)
  {
  }

  /** `getSource` finds the source of the entry as long as it lives, and nothing else. */
  lemma GetFindsTheLiveSource(t: Table, objectId: string, live: set<Obj>, source: Obj)
    ensures SourceOf(t, objectId, live) == Some(source) <==>
            objectId in t && t[objectId].source == Some(source) && source in live
  {
  }

  /** A live source is registered under its name exactly when the name had no entry at all, or it
      was registered there already. An entry whose source expired keeps the name blocked. */
  lemma AddSourceNeedsAFreeName(t: Table, source: Obj, objectId: string, live: set<Obj>)
    requires source in live
    ensures SourceOf(AddSource(t, source, objectId, live), objectId, live) == Some(source) <==>
            objectId !in t || t[objectId].source == Some(source)
    ensures SourceOf(AddSource(t, source, objectId, live), objectId, live).None? <==>
            objectId in t && SourceOf(t, objectId, live).None?
    ensures forall other | other != objectId ::
              SourceOf(AddSource(t, source, objectId, live), other, live) == SourceOf(t, other, live)
  {
  }

  /** A source that is gone already is not added, and neither is one whose name has an entry. */
  lemma AddSourceMayRefuse(t: Table, source: Obj, objectId: string, live: set<Obj>)
    requires source !in live || objectId in t
    ensures AddSource(t, source, objectId, live) == t
  {
  }

  /** So once a source has expired, the next one of that name is refused; without the removal the
      object stays without a source. */
  lemma ExpiredSourceBlocksItsName(objectId: string, first: Obj, next: Obj, live: set<Obj>)
    requires first !in live && next in live
    ensures var t := AddSource(map[], first, objectId, live + {first});
            && SourceOf(t, objectId, live + {first}) == Some(first)
            && SourceOf(AddSource(t, next, objectId, live), objectId, live) == None
            && SourceOf(AddSource(RemoveSource(t, objectId), next, objectId, live), objectId, live) == Some(next)
  {
  }

  /** The reverse view agrees with the forward one. */
  lemma ReverseViewAgrees(t: Table, id: Id, objectId: string)
    ensures objectId in Served(t, id) <==> Linked(t, id, objectId)
  {
  }

  // ----- Histories: the list order is the order of the current links -----

  datatype Op =
    | OpAddSource(source: Obj, objectId: string, live: set<Obj>)
    | OpRemoveSource(objectId: string)
    | OpAddNode(id: Id, objectId: string)
    | OpRemoveNode(id: Id, objectId: string)
    | OpRelease(id: Id)

  function Apply(t: Table, op: Op): Table {
    match op
    case OpAddSource(source, objectId, live) => AddSource(t, source, objectId, live)
    case OpRemoveSource(objectId) => RemoveSource(t, objectId)
    case OpAddNode(id, objectId) => AddNode(t, id, objectId)
    case OpRemoveNode(id, objectId) => RemoveNode(t, id, objectId)
    case OpRelease(id) => Release(t, id)
  }

  function Replay(ops: seq<Op>): Table {
    if ops == [] then map[] else Apply(Replay(ops[..|ops| - 1]), ops[|ops| - 1])
  }

  /** From the history alone: is an entry registered for the object? */
  ghost predicate Registered(ops: seq<Op>, objectId: string) {
    ops != [] &&
    var before, op := ops[..|ops| - 1], ops[|ops| - 1];
    if op == OpRemoveSource(objectId) then false
    else if op.OpAddSource? && op.objectId == objectId && op.source in op.live then true
    else Registered(before, objectId)
  }

  /** From the history alone: when did the node's current link to the object start? */
  ghost function LinkedSince(ops: seq<Op>, id: Id, objectId: string): (since: Option<nat>)
    ensures since.Some? ==> since.value < |ops|
  {
    if ops == [] then None
    else
      var before, op := ops[..|ops| - 1], ops[|ops| - 1];
      var earlier := LinkedSince(before, id, objectId);
      if op == OpRemoveSource(objectId) || op == OpRemoveNode(id, objectId) || op == OpRelease(id) then None
      else if op == OpAddNode(id, objectId) && Registered(before, objectId) && earlier == None
      then Some(|before|)
      else earlier
  }

  ghost predicate InLinkOrder(nodes: seq<Id>, ops: seq<Op>, objectId: string) {
    && (forall id :: id in nodes <==> LinkedSince(ops, id, objectId).Some?)
    && (forall i, j | 0 <= i < j < |nodes| ::
          LinkedSince(ops, nodes[i], objectId).Some? && LinkedSince(ops, nodes[j], objectId).Some? &&
          LinkedSince(ops, nodes[i], objectId).value < LinkedSince(ops, nodes[j], objectId).value)
  }

  lemma KeepsWellFormed(t: Table, op: Op)
    requires WellFormed(t)
    ensures WellFormed(Apply(t, op))
  {
    match op
    case OpAddSource(_, _, _) =>
    case OpRemoveSource(_) =>
    case OpAddNode(id, o) => AddNodeAddsOnePair(t, id, o);
    case OpRemoveNode(id, o) => RemoveNodeRemovesOnePair(t, id, o);
    case OpRelease(id) => ReleaseRemovesOneNode(t, id);
  }

  lemma {:induction false} EraseKeepsOrder(nodes: seq<Id>, id: Id, i: nat, j: nat) returns (i': nat, j': nat)
    requires i < j < |EraseFirst(nodes, id)|
    ensures i' < j' < |nodes|
    ensures nodes[i'] == EraseFirst(nodes, id)[i] && nodes[j'] == EraseFirst(nodes, id)[j]
  {
    if nodes[0] == id {
      return i + 1, j + 1;
    } else if i > 0 {
      i', j' := EraseKeepsOrder(nodes[1..], id, i - 1, j - 1);
      i', j' := i' + 1, j' + 1;
    } else {
      i' := 0;
      assert EraseFirst(nodes, id)[j] in EraseFirst(nodes[1..], id);
      EraseFirstIsSubset(nodes[1..], id, EraseFirst(nodes, id)[j]);
      var k :| 0 <= k < |nodes[1..]| && nodes[1..][k] == EraseFirst(nodes, id)[j];
      j' := k + 1;
    }
  }

  lemma {:induction false} EraseFirstIsSubset(nodes: seq<Id>, id: Id, x: Id)
    requires x in EraseFirst(nodes, id)
    ensures x in nodes
  {
    if nodes[0] != id && nodes[0] != x { EraseFirstIsSubset(nodes[1..], id, x); }
  }

  lemma EraseKeepsLinkOrder(nodes: seq<Id>, before: seq<Op>, ops: seq<Op>, id: Id, objectId: string)
    requires Distinct(nodes) && InLinkOrder(nodes, before, objectId)
    requires forall n :: LinkedSince(ops, n, objectId) ==
                         if n == id then None else LinkedSince(before, n, objectId)
    ensures InLinkOrder(EraseFirst(nodes, id), ops, objectId)
  {
    EraseFirstDeletes(nodes, id);
    var kept := EraseFirst(nodes, id);
    forall i, j | 0 <= i < j < |kept|
      ensures LinkedSince(ops, kept[i], objectId).Some? && LinkedSince(ops, kept[j], objectId).Some?
      ensures LinkedSince(ops, kept[i], objectId).value < LinkedSince(ops, kept[j], objectId).value
    {
      var i', j' := EraseKeepsOrder(nodes, id, i, j);
      assert kept[i] in kept && kept[j] in kept;
    }
  }

  lemma AppendKeepsLinkOrder(nodes: seq<Id>, before: seq<Op>, ops: seq<Op>, id: Id, objectId: string)
    requires Distinct(nodes) && InLinkOrder(nodes, before, objectId) && id !in nodes
    requires forall n :: LinkedSince(ops, n, objectId) ==
                         if n == id then Some(|before|) else LinkedSince(before, n, objectId)
    ensures InLinkOrder(nodes + [id], ops, objectId)
  {
  }

  /** An operation that leaves an object's list and link starts alone leaves their order alone. */
  lemma SameLinksKeepOrder(nodes: seq<Id>, before: seq<Op>, ops: seq<Op>, objectId: string)
    requires InLinkOrder(nodes, before, objectId)
    requires forall n :: LinkedSince(ops, n, objectId) == LinkedSince(before, n, objectId)
    ensures InLinkOrder(nodes, ops, objectId)
  {
  }

  /** How one more operation changes an object's list and its link starts. */
  lemma StepKeepsLinkOrder(before: seq<Op>, op: Op, objectId: string)
    requires WellFormed(Replay(before))
    requires objectId in Replay(before) <==> Registered(before, objectId)
    requires InLinkOrder(NodesOf(Replay(before), objectId), before, objectId)
    ensures InLinkOrder(NodesOf(Apply(Replay(before), op), objectId), before + [op], objectId)
  {
    var t, ops := Replay(before), before + [op];
    var nodes := NodesOf(t, objectId);
    assert ops[..|ops| - 1] == before && ops[|ops| - 1] == op;
    match op
    case OpAddNode(id, o) =>
      if o == objectId && objectId in t && id !in nodes {
        AppendKeepsLinkOrder(nodes, before, ops, id, objectId);
      } else {
        SameLinksKeepOrder(nodes, before, ops, objectId);
      }
    case OpRemoveNode(id, o) =>
      if o == objectId {
        EraseKeepsLinkOrder(nodes, before, ops, id, objectId);
      } else {
        SameLinksKeepOrder(nodes, before, ops, objectId);
      }
    case OpRelease(id) =>
      EraseKeepsLinkOrder(nodes, before, ops, id, objectId);
    case OpAddSource(_, _, _) =>
      SameLinksKeepOrder(nodes, before, ops, objectId);
    case OpRemoveSource(o) =>
      if o != objectId { SameLinksKeepOrder(nodes, before, ops, objectId); }
  }

  lemma StepRegisters(before: seq<Op>, op: Op, objectId: string)
    requires objectId in Replay(before) <==> Registered(before, objectId)
    ensures objectId in Apply(Replay(before), op) <==> Registered(before + [op], objectId)
  {
    var ops := before + [op];
    assert ops[..|ops| - 1] == before && ops[|ops| - 1] == op;
  }

  /** Main result: after any sequence of operations the node list of an object holds exactly the
      nodes whose last link was not undone, in the order in which their current links started. */
  lemma {:induction false} NodesAreInLinkOrder(ops: seq<Op>, objectId: string)
    ensures WellFormed(Replay(ops))
    ensures objectId in Replay(ops) <==> Registered(ops, objectId)
    ensures InLinkOrder(NodesOf(Replay(ops), objectId), ops, objectId)
  {
    if ops != [] {
      var before, op := ops[..|ops| - 1], ops[|ops| - 1];
      NodesAreInLinkOrder(before, objectId);
      KeepsWellFormed(Replay(before), op);
      StepRegisters(before, op, objectId);
      StepKeepsLinkOrder(before, op, objectId);
      assert ops == before + [op];
    }
  }
}
