/** Client nodes and remote nodes joined by FIFO channels: do the two registries agree? */
module LinkAgreement {
  import opened Types
  import opened Protocol
  import Storage
  import Client = ClientTable
  import Remote = RemoteTable
  import opened RemoteNodes

  /** The server end of a connection. */
  datatype Side = Absent | Up(id: Id) | Gone

  /** One connection. Its number is the identity of the client node and of the remote node. `writes`
      says whether the client node has a write function; `unsent` are the objects whose last
      `linkRemote` found none, so that no Link went out. */
  datatype Conn = Conn(
    clientId: Id,
    clientUp: bool,
    writes: bool,
    unsent: set<string>,
    server: Side,
    toServer: seq<Call>)

  /** Two registries with their node storages, and any number of connections between them.
      `hosted` names objects whose source is registered and stays so; other sources come and go. */
  datatype System = System(
    client: Client.Table,
    clientNodes: Storage.State,
    remote: Remote.Table,
    remoteNodes: Storage.State,
    conns: seq<Conn>,
    liveSources: set<Obj>,
    hosted: set<string>)

  datatype Event =
    | OpenClient
    | AcceptRemote(conn: nat)
    | OnWrite(conn: nat, hasWriter: bool)
    | LinkRemote(conn: nat, objectId: string)
    | UnlinkRemote(conn: nat, objectId: string)
    | SendOther(conn: nat, call: Call)
    | DestroyClient(conn: nat)
    | DestroyRemote(conn: nat)
    | Deliver(conn: nat)
    | AddSink(sink: Obj, sinkName: string, liveSinks: set<Obj>)
    | RemoveSink(sinkName: string)
    | AddSource(source: Obj, sourceName: string)
    | RemoveSource(sourceName: string)
    | SourcesLive(live: set<Obj>)

  ghost function ClientsUp(s: System): set<Obj> {
    set c: nat | c < |s.conns| && s.conns[c].clientUp
  }

  ghost function RemotesUp(s: System): set<Obj> {
    set c: nat | c < |s.conns| && s.conns[c].server.Up?
  }

  ghost predicate HostedAreLive(s: System, live: set<Obj>) {
    forall o | o in s.hosted :: Remote.SourceOf(s.remote, o, live).Some?
  }

  ghost predicate Enabled(s: System, e: Event) {
    match e
    case OpenClient => true
    case AcceptRemote(c) => c < |s.conns| && s.conns[c].server.Absent?
    case OnWrite(c, _) => c < |s.conns| && s.conns[c].clientUp
    case LinkRemote(c, _) => c < |s.conns| && s.conns[c].clientUp
    case UnlinkRemote(c, _) => c < |s.conns| && s.conns[c].clientUp
    case SendOther(c, call) => c < |s.conns| && s.conns[c].clientUp && !call.Link? && !call.Unlink?
    case DestroyClient(c) => c < |s.conns| && s.conns[c].clientUp
    case DestroyRemote(c) => c < |s.conns| && s.conns[c].server.Up?
    case Deliver(c) => c < |s.conns| && s.conns[c].server.Up? && s.conns[c].toServer != []
    case AddSink(_, _, _) => true
    case RemoveSink(_) => true
    case AddSource(_, _) => true
    case RemoveSource(o) => o !in s.hosted
    case SourcesLive(live) => HostedAreLive(s, live)
  }

  /** `emitWrite`: without a write function messages are dropped. */
  function Sent(conn: Conn, calls: seq<Call>): seq<Call> {
    if conn.writes then calls else []
  }

  function Send(s: System, c: nat, calls: seq<Call>): System
    requires c < |s.conns|
  {
    s.(conns := s.conns[c := s.conns[c].(toServer := s.conns[c].toServer + Sent(s.conns[c], calls))])
  }

  /** Keeps book of links that were not sent. */
  function Noted(s: System, c: nat, objectId: string): System
    requires c < |s.conns|
  {
    var conn := s.conns[c];
    var unsent := if conn.writes then conn.unsent - {objectId} else conn.unsent + {objectId};
    s.(conns := s.conns[c := conn.(unsent := unsent)])
  }

  function Unlinks(ids: seq<string>): (calls: seq<Call>)
    ensures |calls| == |ids|
  {
    seq(|ids|, i requires 0 <= i < |ids| => Call.Unlink(ids[i]))
  }

  ghost function Next(s: System, e: Event): System
    requires s.clientNodes.WellFormed() && s.remoteNodes.WellFormed() && Enabled(s, e)
  {
    match e
    case OpenClient =>
      var c := |s.conns|;
      var (nodes, id) := Storage.Add(s.clientNodes, c, ClientsUp(s) + {c});
      s.(clientNodes := nodes, conns := s.conns + [Conn(id, true, false, {}, Absent, [])])
    case AcceptRemote(c) =>
      var (nodes, id) := Storage.Add(s.remoteNodes, c, RemotesUp(s) + {c});
      s.(remoteNodes := nodes, conns := s.conns[c := s.conns[c].(server := Up(id))])
    case OnWrite(c, hasWriter) => s.(conns := s.conns[c := s.conns[c].(writes := hasWriter)])
    case LinkRemote(c, o) =>
      var client := Client.SetNode(Client.UnsetNode(s.client, o), s.conns[c].clientId, o);
      Noted(Send(s, c, [Call.Link(o)]), c, o).(client := client)
    case UnlinkRemote(c, o) =>
      Send(s, c, [Call.Unlink(o)]).(client := Client.UnsetNode(s.client, o))
    case SendOther(c, call) => Send(s, c, [call])
    case DestroyClient(c) =>
      var id := s.conns[c].clientId;
      var s' := Send(s, c, Unlinks(KeyOrder.InOrder(Client.Owned(s.client, id))));
      s'.(client := Client.Release(s.client, id),
          clientNodes := if id == INVALID_ID then s.clientNodes else Storage.Remove(s.clientNodes, id),
          conns := s'.conns[c := s'.conns[c].(clientUp := false)])
    case DestroyRemote(c) =>
      var id := s.conns[c].server.id;
      s.(remote := if id == INVALID_ID then s.remote else Remote.Release(s.remote, id),
         remoteNodes := if id == INVALID_ID then s.remoteNodes else Storage.Remove(s.remoteNodes, id),
         conns := s.conns[c := s.conns[c].(server := Gone)])
    case Deliver(c) =>
      var call := s.conns[c].toServer[0];
      var rest := s.(conns := s.conns[c := s.conns[c].(toServer := s.conns[c].toServer[1..])]);
      if SourceFor(s.remote, call, s.liveSources).Some?
      then rest.(remote := Relink(s.remote, s.remoteNodes, s.conns[c].server.id, call, RemotesUp(s)))
      else rest
    case AddSink(sink, o, live) => s.(client := Client.AddSink(s.client, sink, o, live))
    case RemoveSink(o) => s.(client := Client.RemoveSink(s.client, o))
    case AddSource(source, o) => s.(remote := Remote.AddSource(s.remote, source, o, s.liveSources))
    case RemoveSource(o) => s.(remote := Remote.RemoveSource(s.remote, o))
    case SourcesLive(live) => s.(liveSources := live)
  }

  // ----- The claim -----

  function After(call: Call, linked: bool, objectId: string): bool {
    if call == Call.Link(objectId) then true
    else if call == Call.Unlink(objectId) then false
    else linked
  }

  /** Where the server's link to an object ends up once the messages are processed. */
  function Replay(calls: seq<Call>, linked: bool, objectId: string): bool {
    if calls == [] then linked else Replay(calls[1..], After(calls[0], linked, objectId), objectId)
  }

  /** The server's node list of the object contains this connection's remote node now. */
  ghost predicate LinkedNow(s: System, c: nat, objectId: string)
    requires c < |s.conns|
  {
    s.conns[c].server.Up? && Remote.Linked(s.remote, s.conns[c].server.id, objectId)
  }

  /** The client registry assigns the object to this connection's client node. */
  ghost predicate Assigned(s: System, c: nat, objectId: string)
    requires c < |s.conns|
  {
    s.conns[c].clientUp && s.conns[c].clientId != INVALID_ID && objectId in s.client &&
    s.client[objectId].nodeId == s.conns[c].clientId
  }

  /** The server end is still to come, or is there with a usable id. */
  predicate Reachable(server: Side) {
    server.Absent? || (server.Up? && server.id != INVALID_ID)
  }

  ghost predicate Agrees(s: System, c: nat, objectId: string)
    requires c < |s.conns|
  {
    && objectId in s.hosted && Assigned(s, c, objectId) && objectId !in s.conns[c].unsent
    && Reachable(s.conns[c].server) ==>
      Replay(s.conns[c].toServer, LinkedNow(s, c, objectId), objectId)
  }

  ghost predicate Agreement(s: System) {
    forall c: nat, o | c < |s.conns| :: Agrees(s, c, o)
  }

  // ----- What keeps it true -----

  /** Ids and client nodes match one to one, and entries mention registered nodes only. */
  ghost predicate ClientOk(s: System) {
    && s.clientNodes.WellFormed()
    && (forall id | id in s.clientNodes.objects ::
          var c := s.clientNodes.objects[id];
          c < |s.conns| && s.conns[c].clientUp && s.conns[c].clientId == id)
    && (forall c: nat | c < |s.conns| && s.conns[c].clientUp && s.conns[c].clientId != INVALID_ID ::
          Storage.Stores(s.clientNodes.objects, s.conns[c].clientId, c))
    && (forall o | o in s.client && s.client[o].nodeId != INVALID_ID ::
          s.client[o].nodeId in s.clientNodes.objects)
  }

  ghost predicate RemoteOk(s: System) {
    && s.remoteNodes.WellFormed()
    && (forall id | id in s.remoteNodes.objects ::
          var c := s.remoteNodes.objects[id];
          c < |s.conns| && s.conns[c].server == Up(id))
    && (forall c: nat | c < |s.conns| && s.conns[c].server.Up? && s.conns[c].server.id != INVALID_ID ::
          Storage.Stores(s.remoteNodes.objects, s.conns[c].server.id, c))
    && Remote.WellFormed(s.remote)
    && (forall id, o | Remote.Linked(s.remote, id, o) :: id in s.remoteNodes.objects)
    && HostedAreLive(s, s.liveSources)
  }

  ghost predicate Inv(s: System) {
    ClientOk(s) && RemoteOk(s) && Agreement(s)
  }

  /** Registering a node that is not stored, while every stored node is alive. */
  lemma RegisteringIsFresh(st: Storage.State, node: Obj, live: set<Obj>)
    requires st.WellFormed() && node in live
    requires forall id | id in st.objects :: st.objects[id] in live && st.objects[id] != node
    ensures var (st', id) := Storage.Add(st, node, live);
            && st'.WellFormed()
            && (id == INVALID_ID ==> st' == st)
            && (id != INVALID_ID ==> id !in st.objects && st'.objects == st.objects[id := node])
  {
    Storage.AddKeepsWellFormed(st, node, live);
    Storage.AddRefusesIffFull(st, node, live);
    assert Storage.Purged(st.objects, live) == st.objects;
    if Storage.Allocates(st, node, live) { Storage.AllocationIsFresh(st, node, live); }
  }

  lemma {:induction false} ReplayAppends(calls: seq<Call>, more: seq<Call>, linked: bool, o: string)
    ensures Replay(calls + more, linked, o) == Replay(more, Replay(calls, linked, o), o)
  {
    if calls == [] {
      assert calls + more == more;
    } else {
      assert (calls + more)[1..] == calls[1..] + more;
      ReplayAppends(calls[1..], more, After(calls[0], linked, o), o);
    }
  }

  /** Sending messages about other objects changes nothing for this one; a last Link settles it. */
  lemma SendAgrees(s: System, c: nat, call: Call, o: string)
    requires c < |s.conns|
    ensures var calls := s.conns[c].toServer + Sent(s.conns[c], [call]);
            var before := Replay(s.conns[c].toServer, LinkedNow(s, c, o), o);
            Replay(calls, LinkedNow(s, c, o), o) == if s.conns[c].writes then After(call, before, o) else before
  {
    assert s.conns[c].toServer + [] == s.conns[c].toServer;
    ReplayAppends(s.conns[c].toServer, [call], LinkedNow(s, c, o), o);
    assert [call][1..] == [];
    assert Replay([call], Replay(s.conns[c].toServer, LinkedNow(s, c, o), o), o)
        == Replay([call][1..], After(call, Replay(s.conns[c].toServer, LinkedNow(s, c, o), o), o), o);
  }

  // ----- Each step keeps it -----

  lemma OpenClientKeepsClientOk(s: System)
    requires ClientOk(s) && s.remoteNodes.WellFormed()
    ensures ClientOk(Next(s, OpenClient))
  {
    RegisteringIsFresh(s.clientNodes, |s.conns|, ClientsUp(s) + {|s.conns|});
  }

  lemma OpenClientKeepsRemoteOk(s: System)
    requires RemoteOk(s) && s.clientNodes.WellFormed()
    ensures RemoteOk(Next(s, OpenClient))
  {
  }

  lemma OpenClientKeeps(s: System)
    requires Inv(s)
    ensures Inv(Next(s, OpenClient))
  {
    var c := |s.conns|;
    var s' := Next(s, OpenClient);
    OpenClientKeepsClientOk(s);
    OpenClientKeepsRemoteOk(s);
    forall k: nat, o | k < |s'.conns| ensures Agrees(s', k, o) {
      if k < c {
        assert s'.conns[k] == s.conns[k] && Agrees(s, k, o);
        assert LinkedNow(s', k, o) == LinkedNow(s, k, o);
      } else {
        FreshIdIsUnassigned(s, o);
      }
    }
  }

  lemma FreshIdIsUnassigned(s: System, o: string)
    requires ClientOk(s) && s.remoteNodes.WellFormed()
    ensures !Assigned(Next(s, OpenClient), |s.conns|, o)
  {
    RegisteringIsFresh(s.clientNodes, |s.conns|, ClientsUp(s) + {|s.conns|});
  }

  lemma AcceptRemoteKeepsRemoteOk(s: System, c: nat)
    requires RemoteOk(s) && s.clientNodes.WellFormed() && Enabled(s, AcceptRemote(c))
    ensures RemoteOk(Next(s, AcceptRemote(c)))
  {
    RegisteringIsFresh(s.remoteNodes, c, RemotesUp(s) + {c});
  }

  /** A new server end is linked to nothing, even when its id was used before. */
  lemma AcceptRemoteLinksNothing(s: System, c: nat, k: nat, o: string)
    requires RemoteOk(s) && s.clientNodes.WellFormed() && Enabled(s, AcceptRemote(c)) && k < |s.conns|
    requires Reachable(Next(s, AcceptRemote(c)).conns[k].server)
    ensures LinkedNow(Next(s, AcceptRemote(c)), k, o) == LinkedNow(s, k, o)
  {
    RegisteringIsFresh(s.remoteNodes, c, RemotesUp(s) + {c});
  }

  lemma AcceptRemoteKeeps(s: System, c: nat)
    requires Inv(s) && Enabled(s, AcceptRemote(c))
    ensures Inv(Next(s, AcceptRemote(c)))
  {
    var s' := Next(s, AcceptRemote(c));
    AcceptRemoteKeepsRemoteOk(s, c);
    SameClients(s, s');
    forall k: nat, o | k < |s'.conns| ensures Agrees(s', k, o) {
      assert Agrees(s, k, o);
      if Reachable(s'.conns[k].server) { AcceptRemoteLinksNothing(s, c, k, o); }
    }
  }

  lemma OnWriteKeeps(s: System, c: nat, hasWriter: bool)
    requires Inv(s) && Enabled(s, OnWrite(c, hasWriter))
    ensures Inv(Next(s, OnWrite(c, hasWriter)))
  {
    var s' := Next(s, OnWrite(c, hasWriter));
    SameClients(s, s');
    SameServers(s, s');
    forall k: nat, o | k < |s'.conns| ensures Agrees(s', k, o) {
      assert Agrees(s, k, o) && LinkedNow(s', k, o) == LinkedNow(s, k, o);
    }
  }

  lemma LinkRemoteKeepsClientOk(s: System, c: nat, objectId: string)
    requires ClientOk(s) && s.remoteNodes.WellFormed() && Enabled(s, LinkRemote(c, objectId))
    ensures ClientOk(Next(s, LinkRemote(c, objectId)))
  {
  }

  /** The linked object is now assigned to this connection only, the others as before. */
  lemma LinkRemoteAssigns(s: System, c: nat, objectId: string, k: nat, o: string)
    requires ClientOk(s) && s.remoteNodes.WellFormed() && Enabled(s, LinkRemote(c, objectId)) && k < |s.conns|
    ensures Assigned(Next(s, LinkRemote(c, objectId)), k, o) ==> if o == objectId then k == c else Assigned(s, k, o)
  {
  }

  lemma LinkRemoteKeeps(s: System, c: nat, objectId: string)
    requires Inv(s) && Enabled(s, LinkRemote(c, objectId))
    ensures Inv(Next(s, LinkRemote(c, objectId)))
  {
    var s' := Next(s, LinkRemote(c, objectId));
    LinkRemoteKeepsClientOk(s, c, objectId);
    SameServers(s, s');
    forall k: nat, o | k < |s'.conns| ensures Agrees(s', k, o) {
      assert Agrees(s, k, o) && LinkedNow(s', k, o) == LinkedNow(s, k, o);
      LinkRemoteAssigns(s, c, objectId, k, o);
      SendAgrees(s, c, Call.Link(objectId), o);
    }
  }

  lemma UnlinkRemoteKeeps(s: System, c: nat, objectId: string)
    requires Inv(s) && Enabled(s, UnlinkRemote(c, objectId))
    ensures Inv(Next(s, UnlinkRemote(c, objectId)))
  {
    var s' := Next(s, UnlinkRemote(c, objectId));
    forall k: nat, o | k < |s'.conns| ensures Agrees(s', k, o) {
      assert Agrees(s, k, o) && LinkedNow(s', k, o) == LinkedNow(s, k, o);
      SendAgrees(s, c, Call.Unlink(objectId), o);
    }
  }

  lemma SendOtherKeeps(s: System, c: nat, call: Call)
    requires Inv(s) && Enabled(s, SendOther(c, call))
    ensures Inv(Next(s, SendOther(c, call)))
  {
    var s' := Next(s, SendOther(c, call));
    forall k: nat, o | k < |s'.conns| ensures Agrees(s', k, o) {
      assert Agrees(s, k, o) && LinkedNow(s', k, o) == LinkedNow(s, k, o);
      SendAgrees(s, c, call, o);
    }
  }

  lemma DestroyClientKeepsClientOk(s: System, c: nat)
    requires ClientOk(s) && Enabled(s, DestroyClient(c)) && s.remoteNodes.WellFormed()
    ensures ClientOk(Next(s, DestroyClient(c)))
  {
    var s' := Next(s, DestroyClient(c));
    var id := s.conns[c].clientId;
    forall k: nat | k < |s'.conns| && s'.conns[k].clientUp && s'.conns[k].clientId != INVALID_ID
      ensures Storage.Stores(s'.clientNodes.objects, s'.conns[k].clientId, k)
    {
      assert s'.conns[k] == s.conns[k] && Storage.Stores(s.clientNodes.objects, s.conns[k].clientId, k);
      assert id != INVALID_ID ==> Storage.Stores(s.clientNodes.objects, id, c);
    }
  }

  lemma DestroyClientKeeps(s: System, c: nat)
    requires Inv(s) && Enabled(s, DestroyClient(c))
    ensures Inv(Next(s, DestroyClient(c)))
  {
    var s' := Next(s, DestroyClient(c));
    DestroyClientKeepsClientOk(s, c);
    SameServers(s, s');
    forall k: nat, o | k < |s'.conns| ensures Agrees(s', k, o) {
      assert Agrees(s, k, o) && LinkedNow(s', k, o) == LinkedNow(s, k, o);
      assert k != c ==> s'.conns[k] == s.conns[k];
    }
  }

  /** The server half of the invariant depends on the server half of the state only. */
  lemma SameServers(s: System, s': System)
    requires RemoteOk(s)
    requires s'.remote == s.remote && s'.remoteNodes == s.remoteNodes && s'.liveSources == s.liveSources
    requires s'.hosted == s.hosted && |s'.conns| == |s.conns|
    requires forall k | 0 <= k < |s.conns| :: s'.conns[k].server == s.conns[k].server
    ensures RemoteOk(s')
  {
  }

  /** Likewise the client half. */
  lemma SameClients(s: System, s': System)
    requires ClientOk(s)
    requires s'.client == s.client && s'.clientNodes == s.clientNodes && |s'.conns| == |s.conns|
    requires forall k | 0 <= k < |s.conns| ::
               s'.conns[k].clientUp == s.conns[k].clientUp && s'.conns[k].clientId == s.conns[k].clientId
    ensures ClientOk(s')
  {
  }

  lemma DestroyRemoteKeepsRemoteOk(s: System, c: nat)
    requires RemoteOk(s) && Enabled(s, DestroyRemote(c)) && s.clientNodes.WellFormed()
    ensures RemoteOk(Next(s, DestroyRemote(c)))
  {
    var s' := Next(s, DestroyRemote(c));
    var id := s.conns[c].server.id;
    Remote.ReleaseRemovesOneNode(s.remote, id);
    forall k: nat | k < |s'.conns| && s'.conns[k].server.Up? && s'.conns[k].server.id != INVALID_ID
      ensures Storage.Stores(s'.remoteNodes.objects, s'.conns[k].server.id, k)
    {
      assert s'.conns[k] == s.conns[k] && Storage.Stores(s.remoteNodes.objects, s.conns[k].server.id, k);
      assert id != INVALID_ID ==> Storage.Stores(s.remoteNodes.objects, id, c);
    }
    forall o | o in s'.hosted ensures Remote.SourceOf(s'.remote, o, s'.liveSources).Some? {
      assert Remote.SourceOf(s.remote, o, s.liveSources).Some?;
    }
  }

  lemma DestroyRemoteKeeps(s: System, c: nat)
    requires Inv(s) && Enabled(s, DestroyRemote(c))
    ensures Inv(Next(s, DestroyRemote(c)))
  {
    var s' := Next(s, DestroyRemote(c));
    DestroyRemoteKeepsRemoteOk(s, c);
    SameClients(s, s');
    forall k: nat, o | k < |s'.conns| ensures Agrees(s', k, o) {
      assert Agrees(s, k, o);
      if k != c && Reachable(s.conns[k].server) { DestroyRemoteSparesOthers(s, c, k, o); }
    }
  }

  lemma DestroyRemoteSparesOthers(s: System, c: nat, k: nat, o: string)
    requires RemoteOk(s) && Enabled(s, DestroyRemote(c)) && s.clientNodes.WellFormed()
    requires k < |s.conns| && k != c && Reachable(s.conns[k].server)
    ensures LinkedNow(Next(s, DestroyRemote(c)), k, o) == LinkedNow(s, k, o)
  {
    Remote.ReleaseRemovesOneNode(s.remote, s.conns[c].server.id);
    if s.conns[k].server.Up? {
      assert Storage.Stores(s.remoteNodes.objects, s.conns[k].server.id, k);
      assert s.conns[c].server.id != INVALID_ID ==>
             Storage.Stores(s.remoteNodes.objects, s.conns[c].server.id, c);
    }
  }

  /** The server's table once a message is handled. */
  ghost function Handled(s: System, c: nat, call: Call): Remote.Table
    requires c < |s.conns| && s.conns[c].server.Up?
  {
    if SourceFor(s.remote, call, s.liveSources).Some?
    then Relink(s.remote, s.remoteNodes, s.conns[c].server.id, call, RemotesUp(s)) else s.remote
  }

  /** Handling a message changes the link of its own connection and object, as `After` says. */
  lemma HandlingRelinks(s: System, c: nat, call: Call)
    requires RemoteOk(s) && c < |s.conns| && s.conns[c].server.Up?
    ensures Remote.WellFormed(Handled(s, c, call))
    ensures forall id, o | Remote.Linked(Handled(s, c, call), id, o) ::
              Remote.Linked(s.remote, id, o) || (id == s.conns[c].server.id && id in s.remoteNodes.objects)
    ensures forall id, o | id != s.conns[c].server.id ::
              Remote.Linked(Handled(s, c, call), id, o) == Remote.Linked(s.remote, id, o)
    ensures Handled(s, c, call).Keys == s.remote.Keys
    ensures forall o | o in s.remote :: Handled(s, c, call)[o].source == s.remote[o].source
    ensures forall o | o in s.hosted && s.conns[c].server.id != INVALID_ID ::
              Remote.Linked(Handled(s, c, call), s.conns[c].server.id, o)
              == After(call, Remote.Linked(s.remote, s.conns[c].server.id, o), o)
  {
    var id := s.conns[c].server.id;
    if call.Link? {
      Remote.AddNodeAddsOnePair(s.remote, id, call.objectId);
    } else if call.Unlink? {
      Remote.RemoveNodeRemovesOnePair(s.remote, id, call.objectId);
    }
    assert id != INVALID_ID ==> Storage.Stores(s.remoteNodes.objects, id, c);
    forall o | o in s.hosted && id != INVALID_ID
      ensures Remote.Linked(Handled(s, c, call), id, o) == After(call, Remote.Linked(s.remote, id, o), o)
    {
      assert Remote.SourceOf(s.remote, o, s.liveSources).Some?;
    }
  }

  lemma DeliverKeeps(s: System, c: nat)
    requires Inv(s) && Enabled(s, Deliver(c))
    ensures Inv(Next(s, Deliver(c)))
  {
    var s' := Next(s, Deliver(c));
    var call := s.conns[c].toServer[0];
    HandlingRelinks(s, c, call);
    assert s'.remote == Handled(s, c, call);
    SameClients(s, s');
    DeliverKeepsRemoteOk(s, c);
    forall k: nat, o | k < |s'.conns| ensures Agrees(s', k, o) {
      assert Agrees(s, k, o);
      if o in s.hosted && Reachable(s.conns[k].server) {
        if k != c && s.conns[k].server.Up? { DistinctServerIds(s, c, k); }
        assert LinkedNow(s', k, o) == if k == c then After(call, LinkedNow(s, k, o), o) else LinkedNow(s, k, o);
      }
    }
  }

  lemma DistinctServerIds(s: System, c: nat, k: nat)
    requires RemoteOk(s) && c < |s.conns| && k < |s.conns| && k != c
    requires s.conns[c].server.Up? && s.conns[k].server.Up? && s.conns[k].server.id != INVALID_ID
    ensures s.conns[c].server.id != s.conns[k].server.id
  {
  }

  lemma DeliverKeepsRemoteOk(s: System, c: nat)
    requires RemoteOk(s) && Enabled(s, Deliver(c)) && s.clientNodes.WellFormed()
    ensures RemoteOk(Next(s, Deliver(c)))
  {
    var s' := Next(s, Deliver(c));
    HandlingRelinks(s, c, s.conns[c].toServer[0]);
    assert s'.remote == Handled(s, c, s.conns[c].toServer[0]);
    assert forall k | 0 <= k < |s.conns| :: s'.conns[k].server == s.conns[k].server;
    forall o | o in s'.hosted ensures Remote.SourceOf(s'.remote, o, s'.liveSources).Some? {
      assert Remote.SourceOf(s.remote, o, s.liveSources).Some?;
    }
  }

  lemma RegistryEventKeeps(s: System, e: Event)
    requires Inv(s) && Enabled(s, e)
    requires e.AddSink? || e.RemoveSink? || e.AddSource? || e.RemoveSource? || e.SourcesLive?
    ensures Inv(Next(s, e))
  {
    var s' := Next(s, e);
    if e.AddSource? { Remote.AddSourceAddsNoPair(s.remote, e.source, e.sourceName, s.liveSources); }
    if e.RemoveSource? { Remote.RemoveSourceRemovesOneObject(s.remote, e.sourceName); }
    forall k: nat, o | k < |s'.conns| ensures Agrees(s', k, o) {
      assert Agrees(s, k, o);
      assert o in s.hosted ==> LinkedNow(s', k, o) == LinkedNow(s, k, o);
    }
  }

  lemma StepKeeps(s: System, e: Event)
    requires Inv(s) && Enabled(s, e)
    ensures Inv(Next(s, e)) && Next(s, e).hosted == s.hosted
  {
    match e
    case OpenClient => OpenClientKeeps(s);
    case AcceptRemote(c) => AcceptRemoteKeeps(s, c);
    case OnWrite(c, hasWriter) => OnWriteKeeps(s, c, hasWriter);
    case LinkRemote(c, o) => LinkRemoteKeeps(s, c, o);
    case UnlinkRemote(c, o) => UnlinkRemoteKeeps(s, c, o);
    case SendOther(c, call) => SendOtherKeeps(s, c, call);
    case DestroyClient(c) => DestroyClientKeeps(s, c);
    case DestroyRemote(c) => DestroyRemoteKeeps(s, c);
    case Deliver(c) => DeliverKeeps(s, c);
    case _ => RegistryEventKeeps(s, e);
  }

  // ----- Runs -----

  /** No nodes yet; some sources are registered, among them those of the hosted objects. */
  ghost predicate Init(s: System) {
    && s.client == map[] && s.conns == []
    && s.clientNodes.maxCount <= INVALID_ID && s.clientNodes == Storage.Empty(s.clientNodes.maxCount)
    && s.remoteNodes.maxCount <= INVALID_ID && s.remoteNodes == Storage.Empty(s.remoteNodes.maxCount)
    && (forall o | o in s.remote :: s.remote[o].nodes == [])
    && HostedAreLive(s, s.liveSources)
  }

  /** The states of a run follow one another by enabled events. */
  ghost predicate IsRun(states: seq<System>, events: seq<Event>) {
    && |states| == |events| + 1
    && Init(states[0])
    && forall i | 0 <= i < |events| :: IsStep(states[i], events[i], states[i + 1])
  }

  ghost predicate IsStep(s: System, e: Event, s': System) {
    s.clientNodes.WellFormed() && s.remoteNodes.WellFormed() && Enabled(s, e) && s' == Next(s, e)
  }

  lemma {:induction false} RunKeepsInv(states: seq<System>, events: seq<Event>)
    requires IsRun(states, events)
    ensures Inv(states[|events|])
    decreases |events|
  {
    if events != [] {
      var n := |events| - 1;
      assert IsStep(states[n], events[n], states[n + 1]);
      assert forall i | 0 <= i < n :: IsStep(states[i], events[i], states[i + 1]);
      assert forall i | 0 <= i < n :: IsStep(states[..n + 1][i], events[..n][i], states[..n + 1][i + 1]);
      RunKeepsInv(states[..n + 1], events[..n]);
      StepKeeps(states[n], events[n]);
    }
  }

  /** From the history: the connection's last `linkRemote` of the object, if any, had a write function. */
  ghost predicate LinkWasSent(states: seq<System>, events: seq<Event>, i: nat, c: nat, objectId: string)
    requires |states| == |events| + 1 && i <= |events|
  {
    if i == 0 then true
    else if events[i - 1] == LinkRemote(c, objectId) && c < |states[i - 1].conns| then states[i - 1].conns[c].writes
    else LinkWasSent(states, events, i - 1, c, objectId)
  }

  /** One step notes a link that was not sent, and one that was. */
  ghost predicate NotesUnsent(s: System, e: Event, s': System, c: nat, objectId: string) {
    && |s.conns| <= |s'.conns|
    && (|s.conns| <= c ==> e != LinkRemote(c, objectId))
    && (c < |s'.conns| ==>
          (objectId in s'.conns[c].unsent <==>
           && c < |s.conns|
           && if e == LinkRemote(c, objectId) then !s.conns[c].writes else objectId in s.conns[c].unsent))
  }

  lemma StepNotesUnsent(s: System, e: Event, s': System, c: nat, objectId: string)
    requires IsStep(s, e, s')
    ensures NotesUnsent(s, e, s', c, objectId)
  {
  }

  lemma {:induction false} NotesAreTheHistory(states: seq<System>, events: seq<Event>, i: nat, c: nat, objectId: string)
    requires |states| == |events| + 1 && states[0].conns == [] && i <= |events|
    requires forall k | 0 <= k < |events| :: NotesUnsent(states[k], events[k], states[k + 1], c, objectId)
    ensures c < |states[i].conns| ==>
              (objectId in states[i].conns[c].unsent <==> !LinkWasSent(states, events, i, c, objectId))
    ensures c >= |states[i].conns| ==> LinkWasSent(states, events, i, c, objectId)
  {
    if i > 0 {
      NotesAreTheHistory(states, events, i - 1, c, objectId);
      assert NotesUnsent(states[i - 1], events[i - 1], states[i - 1 + 1], c, objectId);
    }
  }

  lemma UnsentIsTheHistory(states: seq<System>, events: seq<Event>, i: nat, c: nat, objectId: string)
    requires IsRun(states, events) && i <= |events| && c < |states[i].conns|
    ensures objectId in states[i].conns[c].unsent <==> !LinkWasSent(states, events, i, c, objectId)
  {
    forall k | 0 <= k < |events| ensures NotesUnsent(states[k], events[k], states[k + 1], c, objectId) {
      StepNotesUnsent(states[k], events[k], states[k + 1], c, objectId);
    }
    NotesAreTheHistory(states, events, i, c, objectId);
  }

  /** Main result: in every run, whenever the client registry assigns a hosted object to a node that
      had a write function when it last linked it, replaying the node's in-flight messages over the
      server's state ends with the connection's remote node in the object's node list. */
  lemma LinkAgreementOverEveryRun(states: seq<System>, events: seq<Event>, i: nat, c: nat, objectId: string)
    requires IsRun(states, events) && i <= |events| && c < |states[i].conns|
    requires objectId in states[i].hosted && Assigned(states[i], c, objectId) && Reachable(states[i].conns[c].server)
    requires LinkWasSent(states, events, i, c, objectId)
    ensures Replay(states[i].conns[c].toServer, LinkedNow(states[i], c, objectId), objectId)
    ensures states[i].conns[c].toServer == [] ==> LinkedNow(states[i], c, objectId)
  {
    PrefixIsRun(states, events, i);
    RunKeepsInv(states[..i + 1], events[..i]);
    UnsentIsTheHistory(states, events, i, c, objectId);
    assert Agrees(states[i], c, objectId);
  }

  // ----- The exact form: the server follows each connection's own last request -----

  /** What connection `c` last asked for about an object: linked or not. A request without a write
      function asks for nothing. Another node that takes the object over does not appear here, as no
      Unlink is sent on the first connection. */
  ghost function Asked(s: System, e: Event, c: nat, objectId: string, before: bool): bool
    requires c < |s.conns|
  {
    if !s.conns[c].writes then before
    else if e == LinkRemote(c, objectId) then true
    else if e == UnlinkRemote(c, objectId) then false
    else if e == DestroyClient(c) && objectId in Client.Owned(s.client, s.conns[c].clientId) then false
    else before
  }

  ghost function LastAsked(states: seq<System>, events: seq<Event>, c: nat, objectId: string): bool
    requires |states| == |events| + 1
    decreases |events|
  {
    if events == [] then false
    else
      var n := |events| - 1;
      var before := LastAsked(states[..n + 1], events[..n], c, objectId);
      if c < |states[n].conns| then Asked(states[n], events[n], c, objectId, before) else false
  }

  ghost function Outcome(s: System, c: nat, objectId: string): bool
    requires c < |s.conns|
  {
    Replay(s.conns[c].toServer, LinkedNow(s, c, objectId), objectId)
  }

  lemma {:induction false} UnlinksUnlinkTheirObjects(ids: seq<string>, linked: bool, o: string)
    ensures Replay(Unlinks(ids), linked, o) == (linked && o !in ids)
  {
    if ids != [] {
      assert Unlinks(ids)[1..] == Unlinks(ids[1..]);
      UnlinksUnlinkTheirObjects(ids[1..], After(Call.Unlink(ids[0]), linked, o), o);
    }
  }

  lemma SendsFollowRequests(s: System, e: Event, c: nat, o: string)
    requires Inv(s) && Enabled(s, e) && c < |s.conns|
    requires e.LinkRemote? || e.UnlinkRemote? || e.SendOther?
    ensures Outcome(Next(s, e), c, o) == Asked(s, e, c, o, Outcome(s, c, o))
  {
    assert LinkedNow(Next(s, e), c, o) == LinkedNow(s, c, o);
    match e
    case LinkRemote(k, x) => SendAgrees(s, k, Call.Link(x), o);
    case UnlinkRemote(k, x) => SendAgrees(s, k, Call.Unlink(x), o);
    case SendOther(k, call) => SendAgrees(s, k, call, o);
  }

  lemma DestroyFollowsRequests(s: System, k: nat, c: nat, o: string)
    requires Inv(s) && Enabled(s, DestroyClient(k)) && c < |s.conns|
    ensures Outcome(Next(s, DestroyClient(k)), c, o) == Asked(s, DestroyClient(k), c, o, Outcome(s, c, o))
  {
    assert LinkedNow(Next(s, DestroyClient(k)), c, o) == LinkedNow(s, c, o);
    if k == c {
      var ids := KeyOrder.InOrder(Client.Owned(s.client, s.conns[c].clientId));
      assert s.conns[c].toServer + [] == s.conns[c].toServer;
      ReplayAppends(s.conns[c].toServer, Unlinks(ids), LinkedNow(s, c, o), o);
      UnlinksUnlinkTheirObjects(ids, Outcome(s, c, o), o);
    }
  }

  lemma DeliveryFollowsRequests(s: System, k: nat, c: nat, o: string)
    requires Inv(s) && Enabled(s, Deliver(k)) && c < |s.conns| && o in s.hosted
    requires Reachable(s.conns[c].server)
    ensures Outcome(Next(s, Deliver(k)), c, o) == Outcome(s, c, o)
  {
    var call := s.conns[k].toServer[0];
    assert Next(s, Deliver(k)).remote == Handled(s, k, call);
    HandlingRelinks(s, k, call);
    if k != c && s.conns[c].server.Up? { DistinctServerIds(s, k, c); }
  }

  lemma OtherEventsFollowRequests(s: System, e: Event, c: nat, o: string)
    requires Inv(s) && Enabled(s, e) && c < |s.conns| && o in s.hosted
    requires !e.LinkRemote? && !e.UnlinkRemote? && !e.SendOther? && !e.DestroyClient? && !e.Deliver?
    requires Reachable(Next(s, e).conns[c].server)
    ensures Outcome(Next(s, e), c, o) == Outcome(s, c, o)
  {
    if e.AcceptRemote? { RegisteringIsFresh(s.remoteNodes, e.conn, RemotesUp(s) + {e.conn}); }
    if e.DestroyRemote? { DestroyRemoteSparesOthers(s, e.conn, c, o); }
    if e.AddSource? { Remote.AddSourceAddsNoPair(s.remote, e.source, e.sourceName, s.liveSources); }
    if e.RemoveSource? { Remote.RemoveSourceRemovesOneObject(s.remote, e.sourceName); }
    assert LinkedNow(Next(s, e), c, o) == LinkedNow(s, c, o);
  }

  /** One step changes a connection's outcome exactly when the connection asks for it. */
  lemma StepFollowsRequests(s: System, e: Event, c: nat, o: string)
    requires Inv(s) && Enabled(s, e) && c < |s.conns| && o in s.hosted
    requires Reachable(Next(s, e).conns[c].server)
    ensures Outcome(Next(s, e), c, o) == Asked(s, e, c, o, Outcome(s, c, o))
  {
    ServersMoveForward(s, e, c);
    if e.LinkRemote? || e.UnlinkRemote? || e.SendOther? { SendsFollowRequests(s, e, c, o); }
    else if e.DestroyClient? { DestroyFollowsRequests(s, e.conn, c, o); }
    else if e.Deliver? { DeliveryFollowsRequests(s, e.conn, c, o); }
    else { OtherEventsFollowRequests(s, e, c, o); }
  }

  /** Delivering everything that is under way on a connection, one message after the other. */
  ghost function Drain(s: System, c: nat): (s': System)
    requires Inv(s) && c < |s.conns| && s.conns[c].server.Up?
    ensures Inv(s') && c < |s'.conns| && s'.conns[c].server.Up? && s'.conns[c].toServer == []
    decreases |s.conns[c].toServer|
  {
    if s.conns[c].toServer == [] then s
    else
      StepKeeps(s, Deliver(c));
      Drain(Next(s, Deliver(c)), c)
  }

  /** Main result: the outcome is what happens. Once a connection's messages are delivered, the
      server's node list is as replaying them said. */
  lemma {:induction false} DrainingReachesTheOutcome(s: System, c: nat, o: string)
    requires Inv(s) && c < |s.conns| && s.conns[c].server.Up? && s.conns[c].server.id != INVALID_ID
    requires o in s.hosted
    ensures LinkedNow(Drain(s, c), c, o) == Outcome(s, c, o)
    decreases |s.conns[c].toServer|
  {
    if s.conns[c].toServer != [] {
      StepKeeps(s, Deliver(c));
      DeliveryFollowsRequests(s, c, c, o);
      DrainingReachesTheOutcome(Next(s, Deliver(c)), c, o);
    }
  }

  lemma ServersMoveForward(s: System, e: Event, c: nat)
    requires s.clientNodes.WellFormed() && s.remoteNodes.WellFormed() && Enabled(s, e) && c < |s.conns|
    ensures c < |Next(s, e).conns| && Next(s, e).hosted == s.hosted
    ensures Next(s, e).conns[c].server == s.conns[c].server || e == AcceptRemote(c) || e == DestroyRemote(c)
    ensures Reachable(Next(s, e).conns[c].server) ==> Reachable(s.conns[c].server)
  {
  }

  /** Main result: in every run, once a connection's in-flight messages are processed, the server
      links a hosted object to the connection exactly when that was the connection's last request. */
  lemma {:induction false} ServerFollowsLastRequest(states: seq<System>, events: seq<Event>, c: nat, o: string)
    requires IsRun(states, events)
    requires c < |states[|events|].conns| && o in states[|events|].hosted
    requires Reachable(states[|events|].conns[c].server)
    ensures Outcome(states[|events|], c, o) == LastAsked(states, events, c, o)
    decreases |events|
  {
    if events != [] {
      var n := |events| - 1;
      PrefixIsRun(states, events, n);
      RunKeepsInv(states[..n + 1], events[..n]);
      assert IsStep(states[n], events[n], states[n + 1]);
      if c < |states[n].conns| {
        ServersMoveForward(states[n], events[n], c);
        ServerFollowsLastRequest(states[..n + 1], events[..n], c, o);
        StepFollowsRequests(states[n], events[n], c, o);
      } else {
        assert events[n].OpenClient? && states[n + 1].conns[c].server.Absent?;
      }
    }
  }

  lemma PrefixIsRun(states: seq<System>, events: seq<Event>, i: nat)
    requires IsRun(states, events) && i <= |events|
    ensures IsRun(states[..i + 1], events[..i])
  {
  }

  /** Main result: in every run, a node registered on either side gets an id, possibly recycled,
      that no entry of its registry mentions. */
  lemma NoInheritedAssociations(states: seq<System>, events: seq<Event>, i: nat)
    requires IsRun(states, events) && i < |events|
    ensures events[i].OpenClient? ==>
              var id := states[i + 1].conns[|states[i].conns|].clientId;
              id != INVALID_ID ==> Client.Owned(states[i + 1].client, id) == {}
    ensures events[i].AcceptRemote? ==>
              var id := states[i + 1].conns[events[i].conn].server.id;
              id != INVALID_ID ==> Remote.Served(states[i + 1].remote, id) == {}
  {
    PrefixIsRun(states, events, i);
    RunKeepsInv(states[..i + 1], events[..i]);
    var s := states[i];
    assert IsStep(s, events[i], states[i + 1]);
    if events[i].OpenClient? {
      RegisteringIsFresh(s.clientNodes, |s.conns|, ClientsUp(s) + {|s.conns|});
    } else if events[i].AcceptRemote? {
      RegisteringIsFresh(s.remoteNodes, events[i].conn, RemotesUp(s) + {events[i].conn});
      var id := states[i + 1].conns[events[i].conn].server.id;
      forall o | id != INVALID_ID ensures o !in Remote.Served(s.remote, id) {
        Remote.ReverseViewAgrees(s.remote, id, o);
      }
    }
  }
}
