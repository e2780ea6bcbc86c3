/** Runs in which client and server see an object differently: takeovers, and links that were not sent. */
module Takeovers {
  import opened Types
  import opened Protocol
  import Storage
  import Remote = RemoteTable
  import opened LinkAgreement
  import opened NotifiedNodes

  /** Main result: a takeover gives the object to the new node on the client and changes nothing about
      the first connection on the server, now or later. */
  lemma TakeoverKeepsTheFirstLinked(s: System, c: nat, d: nat, objectId: string)
    requires Inv(s) && Enabled(s, LinkRemote(d, objectId)) && c < |s.conns| && c != d
    requires s.conns[c].clientUp && s.conns[c].clientId != INVALID_ID && s.conns[d].clientId != INVALID_ID
    ensures var s' := Next(s, LinkRemote(d, objectId));
            && Inv(s') && Assigned(s', d, objectId) && !Assigned(s', c, objectId)
            && Outcome(s', c, objectId) == Outcome(s, c, objectId)
            && (s.conns[d].writes ==> Outcome(s', d, objectId))
  {
    var e := LinkRemote(d, objectId);
    StepKeeps(s, e);
    SendsFollowRequests(s, e, c, objectId);
    SendsFollowRequests(s, e, d, objectId);
    assert Storage.Stores(s.clientNodes.objects, s.conns[c].clientId, c);
    assert Storage.Stores(s.clientNodes.objects, s.conns[d].clientId, d);
  }

  const SERVICE := "demo.Calc"

  /** The start of the runs below: one hosted source, room for two nodes on either side. */
  ghost function Start(): (s: System)
    ensures LinkAgreement.Init(s) && Connected(s, 0, 0, 0)
  {
    var hosting := map[SERVICE := Remote.Entry(Some(9), [])];
    var s := System(map[], Storage.Empty(2), hosting, Storage.Empty(2), [], {9}, {SERVICE});
    assert Remote.SourceOf(s.remote, SERVICE, s.liveSources) == Some(9);
    s
  }

  /** So many clients, servers and write functions are there, and nothing was sent. */
  ghost predicate Connected(s: System, clients: nat, servers: nat, writers: nat) {
    && Inv(s) && |s.conns| == clients && s.hosted == {SERVICE} && s.client == map[]
    && Remote.NodesOf(s.remote, SERVICE) == []
    && |s.clientNodes.objects| == clients && s.clientNodes.maxCount == 2
    && |s.remoteNodes.objects| == servers && s.remoteNodes.maxCount == 2
    && forall c: nat | c < clients :: IsIdle(s.conns[c], c < servers, c < writers)
  }

  ghost predicate IsIdle(conn: Conn, accepted: bool, writes: bool) {
    && conn.clientUp && conn.clientId != INVALID_ID && conn.writes == writes && conn.toServer == []
    && if accepted then conn.server.Up? && conn.server.id != INVALID_ID else conn.server.Absent?
  }

  // What the events leave alone.

  lemma OpenFrame(s: System)
    requires s.clientNodes.WellFormed() && s.remoteNodes.WellFormed()
    ensures var s' := Next(s, OpenClient);
            var (nodes, id) := Storage.Add(s.clientNodes, |s.conns|, ClientsUp(s) + {|s.conns|});
            && s'.clientNodes == nodes && s'.conns == s.conns + [Conn(id, true, false, {}, Absent, [])]
            && s'.hosted == s.hosted && s'.client == s.client
            && s'.remote == s.remote && s'.remoteNodes == s.remoteNodes
  {
  }

  lemma AcceptFrame(s: System, c: nat)
    requires s.clientNodes.WellFormed() && s.remoteNodes.WellFormed() && Enabled(s, AcceptRemote(c))
    ensures var s' := Next(s, AcceptRemote(c)); var (nodes, id) := Storage.Add(s.remoteNodes, c, RemotesUp(s) + {c});
            && s'.remoteNodes == nodes && s'.conns == s.conns[c := s.conns[c].(server := Up(id))]
            && s'.hosted == s.hosted && s'.client == s.client
            && s'.remote == s.remote && s'.clientNodes == s.clientNodes
  {
  }

  lemma LinkFrame(s: System, d: nat, k: nat)
    requires s.clientNodes.WellFormed() && s.remoteNodes.WellFormed()
    requires Enabled(s, LinkRemote(d, SERVICE)) && k < |s.conns|
    ensures var s' := Next(s, LinkRemote(d, SERVICE)); var before := s.conns[k];
            && |s'.conns| == |s.conns| && s'.hosted == s.hosted
            && s'.conns[k] == before.(unsent := s'.conns[k].unsent, toServer := s'.conns[k].toServer)
            && s'.conns[k].toServer == before.toServer + (if k == d then Sent(before, [Call.Link(SERVICE)]) else [])
  {
  }

  lemma DeliverFrame(s: System, c: nat)
    requires s.clientNodes.WellFormed() && s.remoteNodes.WellFormed() && Enabled(s, Deliver(c))
    ensures var s' := Next(s, Deliver(c));
            && s'.conns == s.conns[c := s.conns[c].(toServer := s.conns[c].toServer[1..])]
            && s'.hosted == s.hosted && s'.client == s.client
  {
  }

  /** With room left, a new node gets a valid id. */
  lemma RoomForOne(st: Storage.State, node: Obj, live: set<Obj>)
    requires st.WellFormed() && node in live && |st.objects| < st.maxCount
    requires forall id | id in st.objects :: st.objects[id] in live && st.objects[id] != node
    ensures var (st', id) := Storage.Add(st, node, live);
            id != INVALID_ID && st'.maxCount == st.maxCount && |st'.objects| == |st.objects| + 1
  {
    Storage.AddRefusesIffFull(st, node, live);
    Storage.PurgedKeepsLive(st.objects, live);
    RegisteringIsFresh(st, node, live);
  }

  lemma OpenConnects(s: System, clients: nat)
    requires Connected(s, clients, 0, 0) && clients < 2
    ensures IsStep(s, OpenClient, Next(s, OpenClient)) && Connected(Next(s, OpenClient), clients + 1, 0, 0)
  {
    StepKeeps(s, OpenClient);
    OpenFrame(s);
    RoomForOne(s.clientNodes, clients, ClientsUp(s) + {clients});
    forall c: nat | c <= clients ensures IsIdle(Next(s, OpenClient).conns[c], false, false) {
      if c < clients { assert IsIdle(s.conns[c], false, false); }
    }
  }

  lemma AcceptConnects(s: System, servers: nat)
    requires Connected(s, 2, servers, 0) && servers < 2
    ensures IsStep(s, AcceptRemote(servers), Next(s, AcceptRemote(servers)))
    ensures Connected(Next(s, AcceptRemote(servers)), 2, servers + 1, 0)
  {
    assert IsIdle(s.conns[servers], false, false);
    StepKeeps(s, AcceptRemote(servers));
    AcceptFrame(s, servers);
    RoomForOne(s.remoteNodes, servers, RemotesUp(s) + {servers});
    forall c: nat | c < 2 ensures IsIdle(Next(s, AcceptRemote(servers)).conns[c], c < servers + 1, false) {
      assert IsIdle(s.conns[c], c < servers, false);
    }
  }

  lemma OnWriteConnects(s: System, writers: nat)
    requires Connected(s, 2, 2, writers) && writers < 2
    ensures IsStep(s, OnWrite(writers, true), Next(s, OnWrite(writers, true)))
    ensures Connected(Next(s, OnWrite(writers, true)), 2, 2, writers + 1)
  {
    assert IsIdle(s.conns[writers], true, false);
    StepKeeps(s, OnWrite(writers, true));
  }

  lemma OneMoreStep(states: seq<System>, events: seq<Event>, e: Event)
    returns (states': seq<System>, events': seq<Event>)
    requires IsRun(states, events) && Inv(states[|events|]) && Enabled(states[|events|], e)
    ensures IsRun(states', events') && events' == events + [e] && states'[|events'|] == Next(states[|events|], e)
    ensures states'[|events|] == states[|events|]
  {
    states', events' := states + [Next(states[|events|], e)], events + [e];
    forall i | 0 <= i < |events'| ensures IsStep(states'[i], events'[i], states'[i + 1]) {
      if i < |events| { assert IsStep(states[i], events[i], states[i + 1]); }
    }
  }

  lemma Connecting() returns (states: seq<System>, events: seq<Event>)
    ensures IsRun(states, events) && Connected(states[|events|], 2, 2, 0)
  {
    states, events := [Start()], [];
    OpenConnects(states[|events|], 0);
    states, events := OneMoreStep(states, events, OpenClient);
    OpenConnects(states[|events|], 1);
    states, events := OneMoreStep(states, events, OpenClient);
    AcceptConnects(states[|events|], 0);
    states, events := OneMoreStep(states, events, AcceptRemote(0));
    AcceptConnects(states[|events|], 1);
    states, events := OneMoreStep(states, events, AcceptRemote(1));
  }

  lemma SettingWriters(states: seq<System>, events: seq<Event>) returns (states': seq<System>, events': seq<Event>)
    requires IsRun(states, events) && Connected(states[|events|], 2, 2, 0)
    ensures IsRun(states', events')
    ensures var s := states'[|events'|]; TwoUp(s) && s.conns[0].toServer == s.conns[1].toServer == []
  {
    OnWriteConnects(states[|events|], 0);
    states', events' := OneMoreStep(states, events, OnWrite(0, true));
    OnWriteConnects(states'[|events'|], 1);
    states', events' := OneMoreStep(states', events', OnWrite(1, true));
    assert forall c: nat | c < 2 :: IsIdle(states'[|events'|].conns[c], true, true);
  }

  /** Both ends of a connection are up, and the client writes. */
  ghost predicate IsUp(conn: Conn) {
    && conn.clientUp && conn.clientId != INVALID_ID && conn.writes
    && conn.server.Up? && conn.server.id != INVALID_ID
  }

  ghost predicate TwoUp(s: System) {
    Inv(s) && |s.conns| == 2 && s.hosted == {SERVICE} && IsUp(s.conns[0]) && IsUp(s.conns[1])
  }

  /** Both nodes linked the object, the second one last; so many messages are still under way. */
  ghost predicate TakenOver(s: System, first: nat, second: nat) {
    && TwoUp(s) && Assigned(s, 1, SERVICE) && !Assigned(s, 0, SERVICE)
    && Outcome(s, 0, SERVICE) && Outcome(s, 1, SERVICE)
    && |s.conns[0].toServer| == first && |s.conns[1].toServer| == second
  }

  /** A link of connection `d` while connection `c` is there too. */
  lemma OneLinks(s: System, c: nat, d: nat)
    requires TwoUp(s) && c < 2 && d == 1 - c
    ensures Enabled(s, LinkRemote(d, SERVICE))
    ensures var s' := Next(s, LinkRemote(d, SERVICE));
            && TwoUp(s') && Assigned(s', d, SERVICE) && !Assigned(s', c, SERVICE)
            && Outcome(s', d, SERVICE) && Outcome(s', c, SERVICE) == Outcome(s, c, SERVICE)
            && s'.conns[c].toServer == s.conns[c].toServer
            && s'.conns[d].toServer == s.conns[d].toServer + [Call.Link(SERVICE)]
  {
    TakeoverKeepsTheFirstLinked(s, c, d, SERVICE);
    LinkFrame(s, d, c);
    LinkFrame(s, d, d);
  }

  lemma DeliveryKeepsTakenOver(s: System, c: nat, first: nat, second: nat)
    requires TakenOver(s, first, second) && c < 2 && (if c == 0 then first else second) == 1
    ensures Inv(s) && Enabled(s, Deliver(c))
    ensures TakenOver(Next(s, Deliver(c)), if c == 0 then 0 else first, if c == 1 then 0 else second)
  {
    DeliverFrame(s, c);
    DeliveryKeepsOutcomes(s, c);
    assert forall k: nat | k < 2 :: Assigned(Next(s, Deliver(c)), k, SERVICE) == Assigned(s, k, SERVICE);
  }

  lemma DeliveryKeepsOutcomes(s: System, c: nat)
    requires TwoUp(s) && Enabled(s, Deliver(c))
    ensures var s' := Next(s, Deliver(c));
            && Inv(s') && |s'.conns| == 2
            && Outcome(s', 0, SERVICE) == Outcome(s, 0, SERVICE) && Outcome(s', 1, SERVICE) == Outcome(s, 1, SERVICE)
  {
    StepKeeps(s, Deliver(c));
    DeliverFrame(s, c);
    DeliveryFollowsRequests(s, c, 0, SERVICE);
    DeliveryFollowsRequests(s, c, 1, SERVICE);
  }

  lemma BothLink(states: seq<System>, events: seq<Event>) returns (states': seq<System>, events': seq<Event>)
    requires IsRun(states, events)
    requires var s := states[|events|]; TwoUp(s) && s.conns[0].toServer == s.conns[1].toServer == []
    ensures IsRun(states', events')
    ensures TakenOver(states'[|events'|], 1, 1)
  {
    OneLinks(states[|events|], 1, 0);
    states', events' := OneMoreStep(states, events, LinkRemote(0, SERVICE));
    OneLinks(states'[|events'|], 0, 1);
    states', events' := OneMoreStep(states', events', LinkRemote(1, SERVICE));
  }

  lemma OneArrives(states: seq<System>, events: seq<Event>, c: nat, first: nat, second: nat)
    returns (states': seq<System>, events': seq<Event>)
    requires IsRun(states, events) && TakenOver(states[|events|], first, second)
    requires c < 2 && (if c == 0 then first else second) == 1
    ensures IsRun(states', events')
    ensures TakenOver(states'[|events'|], if c == 0 then 0 else first, if c == 1 then 0 else second)
  {
    DeliveryKeepsTakenOver(states[|events|], c, first, second);
    states', events' := OneMoreStep(states, events, Deliver(c));
  }

  lemma ArrivedAreNotified(s: System)
    requires TakenOver(s, 0, 0)
    ensures 0 in Notified(s, SERVICE) && 1 in Notified(s, SERVICE)
  {
    NotifiedIffLinked(s, SERVICE, 0);
    NotifiedIffLinked(s, SERVICE, 1);
  }

  /** So after both nodes linked one object, the client assigns it to the second, nothing is under way,
      and the source goes on notifying both. */
  lemma TakeoverNotifiesBoth() returns (states: seq<System>, events: seq<Event>)
    ensures IsRun(states, events)
    ensures var s := states[|events|];
            && |s.conns| == 2 && s.conns[0].toServer == s.conns[1].toServer == []
            && Assigned(s, 1, SERVICE) && !Assigned(s, 0, SERVICE)
            && 0 in Notified(s, SERVICE) && 1 in Notified(s, SERVICE)
  {
    states, events := Connecting();
    states, events := SettingWriters(states, events);
    states, events := BothLink(states, events);
    states, events := OneArrives(states, events, 0, 1, 1);
    states, events := OneArrives(states, events, 1, 0, 1);
    ArrivedAreNotified(states[|events|]);
  }

  lemma FirstLinksUnheard(s: System)
    requires Connected(s, 2, 2, 0)
    ensures var s' := Next(s, LinkRemote(0, SERVICE));
            && Inv(s') && |s'.conns| == 2 && s'.hosted == {SERVICE} && Assigned(s', 0, SERVICE)
            && s'.conns[0].toServer == [] && !Outcome(s', 0, SERVICE)
  {
    assert IsIdle(s.conns[0], true, false) && IsIdle(s.conns[1], true, false);
    TakeoverKeepsTheFirstLinked(s, 1, 0, SERVICE);
    LinkFrame(s, 0, 0);
    SendsFollowRequests(s, LinkRemote(0, SERVICE), 0, SERVICE);
  }

  /** And a node that links before it has a write function is assigned the object, while the server
      never hears of it. */
  lemma LinkWithoutWriterIsNeverLinked() returns (states: seq<System>, events: seq<Event>)
    ensures IsRun(states, events)
    ensures var s := states[|events|];
            && |s.conns| == 2 && s.conns[0].toServer == [] && SERVICE in s.hosted
            && Assigned(s, 0, SERVICE) && 0 !in Notified(s, SERVICE)
            && !LinkWasSent(states, events, |events|, 0, SERVICE)
  {
    states, events := Connecting();
    assert IsIdle(states[|events|].conns[0], true, false);
    FirstLinksUnheard(states[|events|]);
    states, events := OneMoreStep(states, events, LinkRemote(0, SERVICE));
    NotifiedIffLinked(states[|events|], SERVICE, 0);
  }
}
