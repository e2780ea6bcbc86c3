/** What `getNodes` answers in a run of `LinkAgreement`: which connections a source notifies. */
module NotifiedNodes {
  import opened Types
  import opened Protocol
  import Storage
  import Remote = RemoteTable
  import opened RemoteNodes
  import opened RemoteRegistries
  import opened LinkAgreement

  /** The nodes `getNodes` lists for an object, by connection. */
  ghost function Notified(s: System, objectId: string): seq<nat> {
    LiveNodes(Remote.NodesOf(s.remote, objectId), s.remoteNodes, RemotesUp(s))
  }

  ghost predicate AllLive(ids: seq<Id>, st: Storage.State, live: set<Obj>) {
    forall i | 0 <= i < |ids| :: ids[i] in st.objects && st.objects[ids[i]] in live
  }

  lemma {:induction false} LiveNodesSkipsNone(ids: seq<Id>, st: Storage.State, live: set<Obj>)
    requires AllLive(ids, st, live)
    ensures |LiveNodes(ids, st, live)| == |ids|
    ensures forall i | 0 <= i < |ids| :: LiveNodes(ids, st, live)[i] == st.objects[ids[i]]
  {
    if ids != [] { LiveNodesSkipsNone(ids[..|ids| - 1], st, live); }
  }

  /** Every listed id belongs to a connection whose remote node is up. */
  lemma NotifiedAt(s: System, objectId: string)
    requires RemoteOk(s)
    ensures var ids := Remote.NodesOf(s.remote, objectId);
            && |Notified(s, objectId)| == |ids|
            && forall i | 0 <= i < |ids| ::
                 && ids[i] in s.remoteNodes.objects
                 && Notified(s, objectId)[i] == s.remoteNodes.objects[ids[i]] < |s.conns|
                 && s.conns[Notified(s, objectId)[i]].server == Up(ids[i])
  {
    var ids := Remote.NodesOf(s.remote, objectId);
    forall i | 0 <= i < |ids|
      ensures ids[i] in s.remoteNodes.objects
      ensures var c := s.remoteNodes.objects[ids[i]]; c < |s.conns| && s.conns[c].server == Up(ids[i])
    {
      assert Remote.Linked(s.remote, ids[i], objectId);
    }
    LiveNodesSkipsNone(ids, s.remoteNodes, RemotesUp(s));
  }

  /** A connection is notified iff it is linked. */
  lemma NotifiedIffLinked(s: System, objectId: string, c: nat)
    requires RemoteOk(s)
    ensures c in Notified(s, objectId) <==> c < |s.conns| && LinkedNow(s, c, objectId)
  {
    var ids := Remote.NodesOf(s.remote, objectId);
    NotifiedAt(s, objectId);
    if c < |s.conns| && LinkedNow(s, c, objectId) {
      var id := s.conns[c].server.id;
      assert Remote.Linked(s.remote, id, objectId);
      assert Storage.Stores(s.remoteNodes.objects, id, c);
      var i :| 0 <= i < |ids| && ids[i] == id;
      assert Notified(s, objectId)[i] == c;
    }
  }

  lemma NotifiedOnce(s: System, objectId: string)
    requires RemoteOk(s)
    ensures Remote.Distinct(Notified(s, objectId))
  {
    NotifiedAt(s, objectId);
  }

  // ----- The order -----

  ghost predicate Precedes(list: seq<nat>, x: nat, y: nat) {
    exists i, j :: 0 <= i < j < |list| && list[i] == x && list[j] == y
  }

  /** Old elements keep their order, and a new one comes after all old ones. */
  ghost predicate KeepsOrder(list: seq<nat>, list': seq<nat>) {
    forall i, j | 0 <= i < j < |list'| :: MayFollow(list, list'[i], list'[j])
  }

  ghost predicate MayFollow(list: seq<nat>, x: nat, y: nat) {
    x in list && (y !in list || Precedes(list, x, y))
  }

  lemma AppendKeepsOrder(list: seq<nat>, x: nat)
    requires x !in list
    ensures KeepsOrder(list, list + [x])
  {
    assert forall i, j | 0 <= i < j < |list| :: Precedes(list, list[i], list[j]);
  }

  lemma SameKeepsOrder(list: seq<nat>)
    ensures KeepsOrder(list, list)
  {
    assert forall i, j | 0 <= i < j < |list| :: Precedes(list, list[i], list[j]);
  }

  lemma ErasingKeepsOrder(list: seq<nat>, x: nat, kept: seq<nat>)
    requires kept == Remote.EraseFirst(list, x)
    ensures KeepsOrder(list, kept)
  {
    forall i: nat, j: nat | i < j < |kept| ensures MayFollow(list, kept[i], kept[j]) {
      var i', j' := Remote.EraseKeepsOrder(list, x, i, j);
      assert list[i'] == kept[i] && list[j'] == kept[j];
    }
  }

  lemma HandlingKeepsIdOrder(t: Remote.Table, st: Storage.State, id: Id, call: Call, live: set<Obj>, objectId: string)
    ensures KeepsOrder(Remote.NodesOf(t, objectId), Remote.NodesOf(Relink(t, st, id, call, live), objectId))
  {
    var ids := Remote.NodesOf(t, objectId);
    SameKeepsOrder(ids);
    ErasingKeepsOrder(ids, id, Remote.EraseFirst(ids, id));
    if id !in ids { AppendKeepsOrder(ids, id); }
  }

  lemma StepKeepsIdOrder(s: System, e: Event, objectId: string)
    requires Inv(s) && Enabled(s, e)
    ensures KeepsOrder(Remote.NodesOf(s.remote, objectId), Remote.NodesOf(Next(s, e).remote, objectId))
  {
    var ids := Remote.NodesOf(s.remote, objectId);
    SameKeepsOrder(ids);
    if e.DestroyRemote? {
      var id := s.conns[e.conn].server.id;
      ErasingKeepsOrder(ids, id, Remote.EraseFirst(ids, id));
    } else if e.Deliver? {
      var conn := s.conns[e.conn];
      HandlingKeepsIdOrder(s.remote, s.remoteNodes, conn.server.id, conn.toServer[0], RemotesUp(s), objectId);
    }
  }

  /** An id in the lists before and after a step belongs to the same connection. */
  lemma StepKeepsOwners(s: System, e: Event, objectId: string, id: Id)
    requires Inv(s) && Enabled(s, e)
    requires Remote.Linked(s.remote, id, objectId) && Remote.Linked(Next(s, e).remote, id, objectId)
    ensures id in s.remoteNodes.objects && id in Next(s, e).remoteNodes.objects
    ensures Next(s, e).remoteNodes.objects[id] == s.remoteNodes.objects[id]
  {
    if e.AcceptRemote? { RegisteringIsFresh(s.remoteNodes, e.conn, RemotesUp(s) + {e.conn}); }
    if e.DestroyRemote? { Remote.ReleaseRemovesOneNode(s.remote, s.conns[e.conn].server.id); }
  }

  /** So the order of the ids is the order of the connections. */
  lemma PairKeepsOrder(s: System, e: Event, objectId: string, i: nat, j: nat)
    requires Inv(s) && Enabled(s, e) && Inv(Next(s, e)) && i < j < |Notified(Next(s, e), objectId)|
    requires KeepsOrder(Remote.NodesOf(s.remote, objectId), Remote.NodesOf(Next(s, e).remote, objectId))
    ensures MayFollow(Notified(s, objectId), Notified(Next(s, e), objectId)[i], Notified(Next(s, e), objectId)[j])
  {
    NotifiedAt(s, objectId);
    NotifiedAt(Next(s, e), objectId);
    var ids, ids' := Remote.NodesOf(s.remote, objectId), Remote.NodesOf(Next(s, e).remote, objectId);
    var list, list' := Notified(s, objectId), Notified(Next(s, e), objectId);
    StepKeepsOwners(s, e, objectId, ids'[i]);
    var a :| 0 <= a < |ids| && ids[a] == ids'[i];
    assert list[a] == list'[i];
    if list'[j] in list {
      NewIdNewConnection(s, e, objectId, list'[j]);
      StepKeepsOwners(s, e, objectId, ids'[j]);
      var b, d :| 0 <= b < d < |ids| && ids[b] == ids'[i] && ids[d] == ids'[j];
      assert list[b] == list'[i] && list[d] == list'[j];
    }
  }

  lemma StepKeepsOrder(s: System, e: Event, objectId: string)
    requires Inv(s) && Enabled(s, e)
    ensures KeepsOrder(Notified(s, objectId), Notified(Next(s, e), objectId))
  {
    StepKeeps(s, e);
    StepKeepsIdOrder(s, e, objectId);
    forall i: nat, j: nat | i < j < |Notified(Next(s, e), objectId)|
      ensures MayFollow(Notified(s, objectId), Notified(Next(s, e), objectId)[i], Notified(Next(s, e), objectId)[j])
    {
      PairKeepsOrder(s, e, objectId, i, j);
    }
  }

  /** A connection that is notified before and after a step is so under the same id. */
  lemma NewIdNewConnection(s: System, e: Event, objectId: string, c: nat)
    requires Inv(s) && Enabled(s, e) && Inv(Next(s, e))
    requires c in Notified(s, objectId) && c in Notified(Next(s, e), objectId)
    ensures c < |s.conns| && s.conns[c].server.Up? && Next(s, e).conns[c].server == s.conns[c].server
    ensures s.conns[c].server.id in Remote.NodesOf(s.remote, objectId)
  {
    NotifiedIffLinked(s, objectId, c);
    NotifiedIffLinked(Next(s, e), objectId, c);
    ServersMoveForward(s, e, c);
  }

  /** From the run: since when has the server linked the object to the connection? */
  ghost function LinkStart(states: seq<System>, i: nat, c: nat, objectId: string): (since: Option<nat>)
    requires i < |states|
    ensures since.Some? <==> c < |states[i].conns| && LinkedNow(states[i], c, objectId)
    ensures since.Some? ==> since.value <= i
  {
    if c >= |states[i].conns| || !LinkedNow(states[i], c, objectId) then None
    else if i > 0 && LinkStart(states, i - 1, c, objectId).Some? then LinkStart(states, i - 1, c, objectId)
    else Some(i)
  }

  ghost predicate StartedInOrder(states: seq<System>, i: nat, objectId: string, list: seq<nat>)
    requires i < |states|
  {
    forall a, b | 0 <= a < b < |list| ::
      var x, y := LinkStart(states, i, list[a], objectId), LinkStart(states, i, list[b], objectId);
      x.Some? && y.Some? && x.value < y.value
  }

  lemma NotifiedAreTheLinked(states: seq<System>, events: seq<Event>, i: nat, objectId: string)
    requires IsRun(states, events) && i <= |events|
    ensures Inv(states[i]) && Remote.Distinct(Notified(states[i], objectId))
    ensures forall c: nat :: c in Notified(states[i], objectId) <==> LinkStart(states, i, c, objectId).Some?
  {
    PrefixIsRun(states, events, i);
    RunKeepsInv(states[..i + 1], events[..i]);
    NotifiedOnce(states[i], objectId);
    forall c: nat ensures c in Notified(states[i], objectId) <==> LinkStart(states, i, c, objectId).Some? {
      NotifiedIffLinked(states[i], objectId, c);
    }
  }

  /** Main result: in every run, `getNodes` lists exactly the connections linked to the object, each
      once, in the order in which their links started. */
  lemma {:induction false} GetNodesListsTheLinkedInOrder(states: seq<System>, events: seq<Event>, i: nat,
                                                         objectId: string)
    requires IsRun(states, events) && i <= |events|
    ensures var s, list := states[i], Notified(states[i], objectId);
            && (forall c: nat :: c in list <==> c < |s.conns| && LinkedNow(s, c, objectId))
            && Remote.Distinct(list)
            && StartedInOrder(states, i, objectId, list)
  {
    NotifiedAreTheLinked(states, events, i, objectId);
    if i == 0 {
      assert Remote.NodesOf(states[0].remote, objectId) == [];
    } else {
      GetNodesListsTheLinkedInOrder(states, events, i - 1, objectId);
      NotifiedAreTheLinked(states, events, i - 1, objectId);
      RunStepKeepsOrder(states, events, i - 1, objectId);
      OrderCarriesOver(states, i, objectId, Notified(states[i - 1], objectId), Notified(states[i], objectId));
    }
  }

  lemma RunStepKeepsOrder(states: seq<System>, events: seq<Event>, i: nat, objectId: string)
    requires IsRun(states, events) && i < |events| && Inv(states[i])
    ensures KeepsOrder(Notified(states[i], objectId), Notified(states[i + 1], objectId))
  {
    assert IsStep(states[i], events[i], states[i + 1]);
    StepKeepsOrder(states[i], events[i], objectId);
  }

  lemma OrderCarriesOver(states: seq<System>, i: nat, objectId: string, list: seq<nat>, list': seq<nat>)
    requires 0 < i < |states| && KeepsOrder(list, list') && StartedInOrder(states, i - 1, objectId, list)
    requires forall c: nat :: c in list <==> LinkStart(states, i - 1, c, objectId).Some?
    requires forall c: nat :: c in list' <==> LinkStart(states, i, c, objectId).Some?
    ensures StartedInOrder(states, i, objectId, list')
  {
    forall a, b | 0 <= a < b < |list'|
      ensures LinkStart(states, i, list'[a], objectId).Some? && LinkStart(states, i, list'[b], objectId).Some?
      ensures LinkStart(states, i, list'[a], objectId).value < LinkStart(states, i, list'[b], objectId).value
    {
      assert list'[a] in list' && list'[b] in list' && MayFollow(list, list'[a], list'[b]);
      if list'[b] in list {
        var x, y :| 0 <= x < y < |list| && list[x] == list'[a] && list[y] == list'[b];
      }
    }
  }

  /** Main result: so once a connection's messages have arrived, the source notifies it about a hosted
      object iff that is what the connection last asked for. */
  lemma NotifiedIffLastAsked(states: seq<System>, events: seq<Event>, c: nat, objectId: string)
    requires IsRun(states, events) && c < |states[|events|].conns| && objectId in states[|events|].hosted
    requires Reachable(states[|events|].conns[c].server) && states[|events|].conns[c].toServer == []
    ensures c in Notified(states[|events|], objectId) <==> LastAsked(states, events, c, objectId)
  {
    ServerFollowsLastRequest(states, events, c, objectId);
    GetNodesListsTheLinkedInOrder(states, events, |events|, objectId);
  }
}
