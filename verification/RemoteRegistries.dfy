/** The class `RemoteRegistry`, proved against `RemoteTable` and the storage. */
module RemoteRegistries {
  import opened Types
  import opened KeyOrder
  import Storage
  import opened UniqueIdObjectStorages
  import Table = RemoteTable

  /** The live nodes behind a list of ids, in list order. */
  function LiveNodes(ids: seq<Id>, s: Storage.State, live: set<Obj>): seq<Obj> {
    if ids == [] then []
    else
      var last := Storage.Lock(s, ids[|ids| - 1], live);
      LiveNodes(ids[..|ids| - 1], s, live) + (if last.Some? then [last.value] else [])
  }

  /** These are exactly the nodes that are stored and live: `at` gives their places in the list. */
  lemma {:induction false} LiveNodesAreTheLive(ids: seq<Id>, s: Storage.State, live: set<Obj>) returns (at: seq<nat>)
    ensures |at| == |LiveNodes(ids, s, live)|
    ensures forall j, k | 0 <= j < k < |at| :: at[j] < at[k]
    ensures forall k | 0 <= k < |at| ::
              at[k] < |ids| && Storage.Stores(s.objects, ids[at[k]], LiveNodes(ids, s, live)[k])
              && LiveNodes(ids, s, live)[k] in live
    ensures forall i: nat | i < |ids| && ids[i] in s.objects && s.objects[ids[i]] in live :: i in at
  {
    at := [];
    if ids != [] {
      var n := |ids| - 1;
      at := LiveNodesAreTheLive(ids[..n], s, live);
      if ids[n] in s.objects && s.objects[ids[n]] in live { at := at + [n]; }
    }
  }

  /** `addNodeForSource`, with its test that the node is still there. */
  function AddNodeIfAlive(t: Table.Table, s: Storage.State, id: Id, objectId: string, live: set<Obj>): Table.Table {
    if Storage.Lock(s, id, live).Some? then Table.AddNode(t, id, objectId) else t
  }

  /** It adds the pair exactly if the object has an entry and the node is stored and lives. */
  lemma AddNodeNeedsALiveNode(t: Table.Table, s: Storage.State, id: Id, objectId: string, live: set<Obj>)
    requires Table.WellFormed(t)
    ensures forall n, o :: Table.Linked(AddNodeIfAlive(t, s, id, objectId, live), n, o) <==>
              || Table.Linked(t, n, o)
              || (n == id && o == objectId && o in t && id in s.objects && s.objects[id] in live)
  {
    Table.AddNodeAddsOnePair(t, id, objectId);
  }

  class RemoteRegistry {
    /** `m_entries`. */
    var entries: Table.Table
    /** `m_remoteNodesById`. */
    const nodes: UniqueIdObjectStorage

    ghost predicate Valid()
      reads this, nodes
    {
      nodes.Valid() && Table.WellFormed(entries)
    }

    constructor (maxCount: nat)
      requires maxCount <= INVALID_ID
      ensures Valid() && fresh(nodes)
      ensures entries == map[] && nodes.State() == Storage.Empty(maxCount)
    {
      entries := map[];
      nodes := new UniqueIdObjectStorage(maxCount);
    }

    method AddSource(source: Obj, objectId: string, live: set<Obj>)
      requires Valid()
      modifies `entries
      ensures Valid()
      ensures entries == Table.AddSource(old(entries), source, objectId, live)
    {
      if source !in live {
        return;
      }
      if objectId !in entries {
        entries := entries[objectId := Table.Entry(Some(source), [])];
      }
      // An entry whose source expired, or that has another source, stays as it is.
    }

    method RemoveSource(objectId: string)
      requires Valid()
      modifies `entries
      ensures Valid()
      ensures entries == Table.RemoveSource(old(entries), objectId)
    {
      if objectId in entries {
        entries := entries - {objectId};
      }
    }

    method GetSource(objectId: string, live: set<Obj>) returns (source: Option<Obj>)
      ensures source == Table.SourceOf(entries, objectId, live)
    {
      if objectId !in entries {
        return None;
      }
      source := entries[objectId].source;
      if source.Some? && source.value !in live {
        source := None;
      }
    }

    method GetNodes(objectId: string, live: set<Obj>) returns (found: seq<Obj>)
      ensures found == LiveNodes(Table.NodesOf(entries, objectId), nodes.State(), live)
    {
      found := [];
      if objectId in entries {
        var ids := entries[objectId].nodes;
        for i := 0 to |ids|
          invariant found == LiveNodes(ids[..i], nodes.State(), live)
        {
          assert ids[..i + 1][..i] == ids[..i];
          var node := nodes.Get(ids[i], live);
          if node.Some? {
            found := found + [node.value];
          }
        }
        assert ids[..|ids|] == ids;
      }
    }

    /** Walks the map in key order. */
    method GetObjectIds(nodeId: Id) returns (ids: seq<string>)
      ensures Lists(ids, Table.Served(entries, nodeId))
    {
      ids := [];
      var rest := entries.Keys;
      ghost var served := Table.Served(entries, nodeId);
      while rest != {}
        invariant rest <= entries.Keys
        invariant forall seen, next | seen in entries.Keys - rest && next in rest :: Below(seen, next)
        invariant Lists(ids, served - rest)
      {
        LeastExists(rest);
        var key :| key in rest && IsLeast(key, rest);
        if nodeId in entries[key].nodes {
          ExtendListing(ids, served - rest, key);
          assert served - rest + {key} == served - (rest - {key});
          ids := ids + [key];
        } else {
          assert served - rest == served - (rest - {key});
        }
        rest := rest - {key};
      }
      assert served - {} == served;
    }

    method AddNodeForSource(nodeId: Id, objectId: string, live: set<Obj>)
      requires Valid()
      modifies `entries
      ensures Valid()
      ensures entries == AddNodeIfAlive(old(entries), nodes.State(), nodeId, objectId, live)
    {
      Table.AddNodeAddsOnePair(entries, nodeId, objectId);
      var node := nodes.Get(nodeId, live);
      if node.None? {
        return;
      }
      if objectId in entries && nodeId !in entries[objectId].nodes {
        entries := entries[objectId := entries[objectId].(nodes := entries[objectId].nodes + [nodeId])];
      }
    }

    method RemoveNodeFromSource(nodeId: Id, objectId: string)
      requires Valid()
      modifies `entries
      ensures Valid()
      ensures entries == Table.RemoveNode(old(entries), nodeId, objectId)
    {
      Table.RemoveNodeRemovesOnePair(entries, nodeId, objectId);
      if objectId in entries {
        var remaining := Table.EraseFirst(entries[objectId].nodes, nodeId);
        entries := entries[objectId := entries[objectId].(nodes := remaining)];
      }
    }

    method RegisterNode(node: Obj, live: set<Obj>) returns (id: Id)
      requires Valid()
      modifies nodes
      ensures Valid()
      ensures (nodes.State(), id) == Storage.Add(old(nodes.State()), node, live)
    {
      if node !in live {
        return INVALID_ID;
      }
      id := nodes.Add(node, live);
    }

    /** Rewrites the entries first, then frees the id. */
    method UnregisterNode(id: Id)
      requires Valid()
      modifies this, nodes
      ensures Valid()
      ensures entries == if id == INVALID_ID then old(entries) else Table.Release(old(entries), id)
      ensures nodes.State() == if id == INVALID_ID then old(nodes.State())
                               else Storage.Remove(old(nodes.State()), id)
    {
      if id != INVALID_ID {
        Table.ReleaseRemovesOneNode(entries, id);
        var rest := entries.Keys;
        while rest != {}
          invariant rest <= entries.Keys == old(entries).Keys
          invariant forall key | key in entries ::
                      entries[key] == if key in rest then old(entries)[key] else Table.Release(old(entries), id)[key]
          invariant nodes.State() == old(nodes.State()) && nodes.Valid()
        {
          var key :| key in rest;
          entries := entries[key := entries[key].(nodes := Table.EraseFirst(entries[key].nodes, id))];
          rest := rest - {key};
        }
        nodes.Remove(id);
      }
    }
  }
}
