/** The class `ClientRegistry`, proved against `ClientTable` and the storage. */
module ClientRegistries {
  import opened Types
  import opened KeyOrder
  import Storage
  import opened UniqueIdObjectStorages
  import Table = ClientTable

  class ClientRegistry {
    /** `m_entries`. */
    var entries: Table.Table
    /** `m_clientNodesById`. */
    const nodes: UniqueIdObjectStorage

    ghost predicate Valid()
      reads this, nodes
    {
      nodes.Valid()
    }

    constructor (maxCount: nat)
      requires maxCount <= INVALID_ID
      ensures Valid() && fresh(nodes)
      ensures entries == map[] && nodes.State() == Storage.Empty(maxCount)
    {
      entries := map[];
      nodes := new UniqueIdObjectStorage(maxCount);
    }

    /** A node that is gone is only warned about: the id is stored all the same. */
    method SetNode(id: Id, objectId: string)
      modifies `entries
      ensures entries == Table.SetNode(old(entries), id, objectId)
    {
      if objectId !in entries {
        entries := entries[objectId := Table.Entry(None, id)];
      } else if entries[objectId].nodeId == INVALID_ID {
        entries := entries[objectId := entries[objectId].(nodeId := id)];
      }
    }

    method UnsetNode(objectId: string)
      modifies `entries
      ensures entries == Table.UnsetNode(old(entries), objectId)
    {
      if objectId in entries {
        entries := entries[objectId := entries[objectId].(nodeId := INVALID_ID)];
      }
    }

    method AddSink(sink: Obj, objectId: string, live: set<Obj>)
      modifies `entries
      ensures entries == Table.AddSink(old(entries), sink, objectId, live)
    {
      if sink !in live {
        return;
      }
      if objectId !in entries {
        entries := entries[objectId := Table.Entry(Some(sink), INVALID_ID)];
      } else if Table.Expired(entries[objectId].sink, live) {
        entries := entries[objectId := entries[objectId].(sink := Some(sink))];
      }
    }

    method RemoveSink(objectId: string)
      modifies `entries
      ensures entries == Table.RemoveSink(old(entries), objectId)
    {
      if objectId in entries {
        entries := entries - {objectId};
      }
    }

    method GetSink(objectId: string, live: set<Obj>) returns (sink: Option<Obj>)
      ensures sink == Table.SinkOf(entries, objectId, live)
    {
      if objectId !in entries {
        return None;
      }
      sink := entries[objectId].sink;
      if sink.Some? && sink.value !in live {
        sink := None;
      }
    }

    /** Walks the map in key order. */
    method GetObjectIds(nodeId: Id) returns (ids: seq<string>)
      ensures Lists(ids, Table.Owned(entries, nodeId))
    {
      ids := [];
      var rest := entries.Keys;
      while rest != {}
        invariant rest <= entries.Keys
        invariant forall seen, next | seen in entries.Keys - rest && next in rest :: Below(seen, next)
        invariant Lists(ids, Table.Owned(entries, nodeId) - rest)
      {
        LeastExists(rest);
        var key :| key in rest && IsLeast(key, rest);
        if entries[key].nodeId == nodeId {
          ExtendListing(ids, Table.Owned(entries, nodeId) - rest, key);
          assert Table.Owned(entries, nodeId) - rest + {key} == Table.Owned(entries, nodeId) - (rest - {key});
          ids := ids + [key];
        } else {
          assert Table.Owned(entries, nodeId) - rest == Table.Owned(entries, nodeId) - (rest - {key});
        }
        rest := rest - {key};
      }
      assert Table.Owned(entries, nodeId) - {} == Table.Owned(entries, nodeId);
    }

    method GetNode(objectId: string, live: set<Obj>) returns (node: Option<Obj>)
      ensures node == if objectId in entries then Storage.Lock(nodes.State(), entries[objectId].nodeId, live)
                      else None
    {
      if objectId in entries {
        node := nodes.Get(entries[objectId].nodeId, live);
      } else {
        node := None;
      }
    }

    method RegisterNode(node: Obj, live: set<Obj>) returns (id: Id)
      requires Valid()
      modifies nodes
      ensures Valid()
      ensures (nodes.State(), id) == Storage.Add(old(nodes.State()), node, live)
    {
      if node !in live {
        return INVALID_ID;
      }
      id := nodes.Add(node, live);
    }

    /** Rewrites the entries first, then frees the id. */
    method UnregisterNode(id: Id)
      requires Valid()
      modifies this, nodes
      ensures Valid()
      ensures entries == Table.Release(old(entries), id)
      ensures nodes.State() == if id == INVALID_ID then old(nodes.State())
                               else Storage.Remove(old(nodes.State()), id)
    {
      if id != INVALID_ID {
        var rest := entries.Keys;
        while rest != {}
          invariant rest <= entries.Keys == old(entries).Keys
          invariant forall key | key in entries ::
                      entries[key] == if key in rest then old(entries)[key] else Table.Release(old(entries), id)[key]
          invariant nodes.State() == old(nodes.State()) && nodes.Valid()
        {
          var key :| key in rest;
          if entries[key].nodeId == id {
            entries := entries[key := entries[key].(nodeId := INVALID_ID)];
          }
          rest := rest - {key};
        }
        nodes.Remove(id);
      }
    }
  }
}
