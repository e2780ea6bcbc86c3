/** The entries of `ClientRegistry` as a value, and what each operation does to them. */
module ClientTable {
  import opened Types

  /** `SinkToClientEntry`. A default-constructed weak pointer is `None`. */
  datatype Entry = Entry(sink: Option<Obj>, nodeId: Id)

  type Table = map<string, Entry>

  function SetNode(t: Table, id: Id, objectId: string): Table {
    if objectId !in t then t[objectId := Entry(None, id)]
    else if t[objectId].nodeId == INVALID_ID then t[objectId := t[objectId].(nodeId := id)]
    else t
  }

  function UnsetNode(t: Table, objectId: string): Table {
    if objectId in t then t[objectId := t[objectId].(nodeId := INVALID_ID)] else t
  }

  predicate Expired(sink: Option<Obj>, live: set<Obj>) {
    sink.None? || sink.value !in live
  }

  /** `addSink` for a sink whose name is `objectId`. */
  function AddSink(t: Table, sink: Obj, objectId: string, live: set<Obj>): Table {
    if sink !in live then t
    else if objectId !in t then t[objectId := Entry(Some(sink), INVALID_ID)]
    else if Expired(t[objectId].sink, live) then t[objectId := t[objectId].(sink := Some(sink))]
    else t
  }

  function RemoveSink(t: Table, objectId: string): Table {
    t - {objectId}
  }

  /** `getSink(objectId).lock()`. */
  function SinkOf(t: Table, objectId: string, live: set<Obj>): Option<Obj> {
    if objectId in t && !Expired(t[objectId].sink, live) then t[objectId].sink else None
  }

  /** The objects assigned to a node id. */
  function Owned(t: Table, id: Id): set<string> {
    set objectId | objectId in t && t[objectId].nodeId == id
  }

  /** The part of `unregisterNode` that rewrites the entries. */
  function Release(t: Table, id: Id): Table {
    map objectId | objectId in t ::
      if t[objectId].nodeId == id then t[objectId].(nodeId := INVALID_ID) else t[objectId]
  }

  function OwnerOf(t: Table, objectId: string): Id {
    if objectId in t then t[objectId].nodeId else INVALID_ID
  }

  /** Unsetting a list of objects one after the other. */
  function UnsetEach(t: Table, ids: seq<string>): Table {
    if ids == [] then t else UnsetNode(UnsetEach(t, ids[..|ids| - 1]), ids[|ids| - 1])
  }

  lemma {:induction false} UnsetEachAt(t: Table, ids: seq<string>, objectId: string)
    ensures objectId in UnsetEach(t, ids) <==> objectId in t
    ensures objectId in t ==>
            UnsetEach(t, ids)[objectId] ==
            if objectId in ids then t[objectId].(nodeId := INVALID_ID) else t[objectId]
  {
    if ids != [] {
      UnsetEachAt(t, ids[..|ids| - 1], objectId);
      assert ids == ids[..|ids| - 1] + [ids[|ids| - 1]];
    }
  }

  /** Main result: unsetting, one by one, the objects a snapshot listed for a node releases exactly
      that node, although every step rewrites the table the snapshot came from. */
  lemma UnsettingTheOwnedReleases(t: Table, id: Id, ids: seq<string>)
    requires forall objectId :: objectId in ids <==> objectId in Owned(t, id)
    ensures UnsetEach(t, ids) == Release(t, id)
  {
    forall objectId
      ensures objectId in UnsetEach(t, ids) <==> objectId in t
      ensures objectId in t ==> UnsetEach(t, ids)[objectId] == Release(t, id)[objectId]
    {
      UnsetEachAt(t, ids, objectId);
    }
  }

  /** After a release no entry mentions the id, and other nodes' entries and all sinks are as before. */
  lemma ReleaseFreesExactlyTheNode(t: Table, id: Id)
    ensures id != INVALID_ID ==> Owned(Release(t, id), id) == {}
    ensures forall other | other != id && other != INVALID_ID :: Owned(Release(t, id), other) == Owned(t, other)
    ensures forall objectId, live :: SinkOf(Release(t, id), objectId, live) == SinkOf(t, objectId, live)
  {
  }

  /** `setNode` alone never takes an object away from a node: it fills an unset entry only. */
  lemma SetNodeNeverTakesOver(t: Table, id: Id, objectId: string)
    ensures OwnerOf(SetNode(t, id, objectId), objectId) ==
            if OwnerOf(t, objectId) == INVALID_ID then id else OwnerOf(t, objectId)
    ensures forall other | other != objectId :: OwnerOf(SetNode(t, id, objectId), other) == OwnerOf(t, other)
    ensures forall o, live :: SinkOf(SetNode(t, id, objectId), o, live) == SinkOf(t, o, live)
  {
  }

  /** `getSink` finds the sink of the entry as long as it lives, and nothing else. */
  lemma GetFindsTheLiveSink(t: Table, objectId: string, live: set<Obj>, sink: Obj)
    ensures SinkOf(t, objectId, live) == Some(sink) <==>
            objectId in t && t[objectId].sink == Some(sink) && sink in live
  {
  }

  /** `removeSink` erases one entry, with sink and node. */
  lemma RemoveSinkErasesOneEntry(t: Table, objectId: string, live: set<Obj>)
    ensures SinkOf(RemoveSink(t, objectId), objectId, live) == None
    ensures OwnerOf(RemoveSink(t, objectId), objectId) == INVALID_ID
    ensures RemoveSink(t, objectId).Keys == t.Keys - {objectId}
    ensures forall o | o in t && o != objectId :: RemoveSink(t, objectId)[o] == t[o]
  {
  }

  /** A live sink gets the name unless a live sink has it already; an expired one is replaced, and
      the node assignment of every object stays. */
  lemma AddSinkFillsTheName(t: Table, sink: Obj, objectId: string, live: set<Obj>)
    requires sink in live
    ensures SinkOf(AddSink(t, sink, objectId, live), objectId, live) ==
            if SinkOf(t, objectId, live).Some? then SinkOf(t, objectId, live) else Some(sink)
    ensures forall other | other != objectId ::
              SinkOf(AddSink(t, sink, objectId, live), other, live) == SinkOf(t, other, live)
    ensures forall o :: OwnerOf(AddSink(t, sink, objectId, live), o) == OwnerOf(t, o)
  {
  }

  /** A sink that is gone already is not added, and neither is one whose name a live sink has. */
  lemma AddSinkMayRefuse(t: Table, sink: Obj, objectId: string, live: set<Obj>)
    requires sink !in live || SinkOf(t, objectId, live).Some?
    ensures AddSink(t, sink, objectId, live) == t
  {
  }

  /** A link takes the object over from any node, and disturbs no other object. */
  lemma LinkTakesOver(t: Table, id: Id, objectId: string)
    ensures OwnerOf(SetNode(UnsetNode(t, objectId), id, objectId), objectId) == id
    ensures forall other | other != objectId ::
              OwnerOf(SetNode(UnsetNode(t, objectId), id, objectId), other) == OwnerOf(t, other)
  {
  }
}
