/** The class `ClientNode`, proved against `ClientTable`, `Invocations` and the builders. */
module ClientNodes {
  import opened Types
  import opened KeyOrder
  import opened Protocol
  import opened Invocations
  import opened ClientRegistries
  import Names
  import Storage
  import Table = ClientTable

  /** A call the node makes to the outside: the write function, a sink, or a reply callback. */
  datatype Outside =
    | Wrote(msg: Json)
    | OnInit(sink: Obj, objectId: string, props: Json)
    | OnPropertyChanged(sink: Obj, propertyId: string, value: Json)
    | OnSignal(sink: Obj, signalId: string, args: Json)
    | OnRelease(sink: Obj)
    | RanCallback(run: CallbackRun)

  /** An outside call together with the registry and the pending calls as the callee finds them:
      the sequence of effects fixes the order of calls and state changes. */
  datatype Effect = Effect(what: Outside, entries: Table.Table, pending: Invocations.Pending)

  function Seen(outs: seq<Outside>, t: Table.Table, p: Invocations.Pending): (effects: seq<Effect>)
    ensures |effects| == |outs|
    ensures forall i | 0 <= i < |outs| :: effects[i] == Effect(outs[i], t, p)
  {
    seq(|outs|, i requires 0 <= i < |outs| => Effect(outs[i], t, p))
  }

  function Write(msg: Json, hasWriter: bool): seq<Outside> {
    if hasWriter then [Wrote(msg)] else []
  }

  /** `unlinkRemote`: a live sink is released, then the message is sent. */
  function UnlinkOuts(t: Table.Table, objectId: string, live: set<Obj>, hasWriter: bool): seq<Outside> {
    var sink := Table.SinkOf(t, objectId, live);
    (if sink.Some? then [OnRelease(sink.value)] else []) + Write(UnlinkMessage(objectId), hasWriter)
  }

  /** Unlinking a list of objects: each finds the earlier ones unset already. */
  function UnlinkEffects(t: Table.Table, ids: seq<string>, live: set<Obj>, hasWriter: bool,
                         p: Invocations.Pending): seq<Effect> {
    if ids == [] then []
    else
      var done, next := ids[..|ids| - 1], ids[|ids| - 1];
      UnlinkEffects(t, done, live, hasWriter, p)
      + Seen(UnlinkOuts(t, next, live, hasWriter), Table.UnsetEach(t, done), p)
  }

  /** The messages among the effects. */
  function Messages(effects: seq<Effect>): seq<Json> {
    if effects == [] then []
    else
      var last := effects[|effects| - 1].what;
      Messages(effects[..|effects| - 1]) + if last.Wrote? then [last.msg] else []
  }

  lemma {:induction false} MessagesOfConcat(a: seq<Effect>, b: seq<Effect>)
    ensures Messages(a + b) == Messages(a) + Messages(b)
  {
    if b == [] {
      assert a + b == a;
    } else {
      assert (a + b)[..|a + b| - 1] == a + b[..|b| - 1];
      MessagesOfConcat(a, b[..|b| - 1]);
    }
  }

  lemma OneUnlinkMessage(t: Table.Table, objectId: string, live: set<Obj>, hasWriter: bool, now: Table.Table,
                         p: Invocations.Pending)
    ensures Messages(Seen(UnlinkOuts(t, objectId, live, hasWriter), now, p)) ==
            if hasWriter then [UnlinkMessage(objectId)] else []
  {
    var outs := UnlinkOuts(t, objectId, live, hasWriter);
    var e := Seen(outs, now, p);
    if Table.SinkOf(t, objectId, live).Some? { assert e[..1][..0] == [] && e[..1][0].what == outs[0]; }
    assert Messages(e[..0]) == [] && Messages(e[..|e|]) == Messages(e) by { assert e[..|e|] == e; }
    if hasWriter { assert outs[|outs| - 1] == Wrote(UnlinkMessage(objectId)); }
  }

  lemma OneMoreUnlink(t: Table.Table, ids: seq<string>, live: set<Obj>, hasWriter: bool, p: Invocations.Pending)
    requires ids != []
    ensures Messages(UnlinkEffects(t, ids, live, hasWriter, p)) ==
            Messages(UnlinkEffects(t, ids[..|ids| - 1], live, hasWriter, p))
            + if hasWriter then [UnlinkMessage(ids[|ids| - 1])] else []
  {
    var done, next := ids[..|ids| - 1], ids[|ids| - 1];
    var before := UnlinkEffects(t, done, live, hasWriter, p);
    var last := Seen(UnlinkOuts(t, next, live, hasWriter), Table.UnsetEach(t, done), p);
    assert UnlinkEffects(t, ids, live, hasWriter, p) == before + last;
    OneUnlinkMessage(t, next, live, hasWriter, Table.UnsetEach(t, done), p);
    MessagesOfConcat(before, last);
  }

  function UnlinkMessages(ids: seq<string>): (msgs: seq<Json>)
    ensures |msgs| == |ids| && forall i | 0 <= i < |ids| :: msgs[i] == UnlinkMessage(ids[i])
  {
    seq(|ids|, i requires 0 <= i < |ids| => UnlinkMessage(ids[i]))
  }

  /** Main result: the destructor sends exactly one Unlink per object of its list, in list order, and
      nothing at all without a write function. */
  lemma {:induction false} OneUnlinkPerObject(t: Table.Table, ids: seq<string>, live: set<Obj>, hasWriter: bool,
                                              p: Invocations.Pending)
    ensures Messages(UnlinkEffects(t, ids, live, hasWriter, p)) == if hasWriter then UnlinkMessages(ids) else []
  {
    if ids != [] {
      var n := |ids| - 1;
      OneUnlinkPerObject(t, ids[..n], live, hasWriter, p);
      OneMoreUnlink(t, ids, live, hasWriter, p);
      OneMoreMessage(ids);
    }
  }

  lemma OneMoreMessage(ids: seq<string>)
    requires ids != []
    ensures UnlinkMessages(ids) == UnlinkMessages(ids[..|ids| - 1]) + [UnlinkMessage(ids[|ids| - 1])]
  {
  }

  // ----- Which sinks the destructor releases -----

  /** The releases among the effects. */
  function Releases(effects: seq<Effect>): seq<Effect> {
    if effects == [] then []
    else
      var last := effects[|effects| - 1];
      Releases(effects[..|effects| - 1]) + if last.what.OnRelease? then [last] else []
  }

  lemma {:induction false} ReleasesOfConcat(a: seq<Effect>, b: seq<Effect>)
    ensures Releases(a + b) == Releases(a) + Releases(b)
  {
    if b == [] {
      assert a + b == a;
    } else {
      assert (a + b)[..|a + b| - 1] == a + b[..|b| - 1];
      ReleasesOfConcat(a, b[..|b| - 1]);
    }
  }

  /** The objects of a list that have a live sink. */
  function WithSink(t: Table.Table, ids: seq<string>, live: set<Obj>): seq<string> {
    if ids == [] then []
    else
      var next := ids[|ids| - 1];
      WithSink(t, ids[..|ids| - 1], live) + if Table.SinkOf(t, next, live).Some? then [next] else []
  }

  lemma OneReleasePerUnlink(t: Table.Table, objectId: string, live: set<Obj>, hasWriter: bool, now: Table.Table,
                            p: Invocations.Pending)
    ensures var sink := Table.SinkOf(t, objectId, live);
            Releases(Seen(UnlinkOuts(t, objectId, live, hasWriter), now, p)) ==
            if sink.Some? then [Effect(OnRelease(sink.value), now, p)] else []
  {
    var outs := UnlinkOuts(t, objectId, live, hasWriter);
    var e := Seen(outs, now, p);
    if Table.SinkOf(t, objectId, live).Some? { assert e[..1][..0] == [] && e[..1] == [e[0]]; }
    assert Releases(e[..0]) == [] && e[..|e|] == e;
  }

  /** What the release of an object of the list looks like: its sink is told, finding the registry
      with exactly the earlier objects of the list unset. */
  ghost predicate ReleasedInTurn(e: Effect, t: Table.Table, ids: seq<string>, objectId: string, live: set<Obj>,
                                 p: Invocations.Pending) {
    exists k :: 0 <= k < |ids| && ids[k] == objectId && Table.SinkOf(t, objectId, live).Some? &&
      e == Effect(OnRelease(Table.SinkOf(t, objectId, live).value), Table.UnsetEach(t, ids[..k]), p)
  }

  lemma OneMoreRelease(t: Table.Table, ids: seq<string>, live: set<Obj>, hasWriter: bool, p: Invocations.Pending)
    requires ids != []
    ensures var done, next := ids[..|ids| - 1], ids[|ids| - 1];
            var sink := Table.SinkOf(t, next, live);
            Releases(UnlinkEffects(t, ids, live, hasWriter, p)) ==
            Releases(UnlinkEffects(t, done, live, hasWriter, p))
            + if sink.Some? then [Effect(OnRelease(sink.value), Table.UnsetEach(t, done), p)] else []
  {
    var done, next := ids[..|ids| - 1], ids[|ids| - 1];
    ReleasesOfConcat(UnlinkEffects(t, done, live, hasWriter, p),
                     Seen(UnlinkOuts(t, next, live, hasWriter), Table.UnsetEach(t, done), p));
    OneReleasePerUnlink(t, next, live, hasWriter, Table.UnsetEach(t, done), p);
  }

  lemma StillInTurn(e: Effect, t: Table.Table, ids: seq<string>, n: nat, objectId: string, live: set<Obj>,
                    p: Invocations.Pending)
    requires n <= |ids| && ReleasedInTurn(e, t, ids[..n], objectId, live, p)
    ensures ReleasedInTurn(e, t, ids, objectId, live, p)
  {
    var k :| 0 <= k < n && ids[..n][k] == objectId && Table.SinkOf(t, objectId, live).Some? &&
      e == Effect(OnRelease(Table.SinkOf(t, objectId, live).value), Table.UnsetEach(t, ids[..n][..k]), p);
    assert ids[..n][..k] == ids[..k] && ids[k] == objectId;
  }

  lemma {:induction false} ReleasesFollowTheList(t: Table.Table, ids: seq<string>, live: set<Obj>, hasWriter: bool,
                                                 p: Invocations.Pending)
    ensures var released, objects := Releases(UnlinkEffects(t, ids, live, hasWriter, p)), WithSink(t, ids, live);
            && |released| == |objects|
            && forall i | 0 <= i < |objects| :: ReleasedInTurn(released[i], t, ids, objects[i], live, p)
  {
    if ids != [] {
      var n := |ids| - 1;
      var before, objects := Releases(UnlinkEffects(t, ids[..n], live, hasWriter, p)), WithSink(t, ids[..n], live);
      ReleasesFollowTheList(t, ids[..n], live, hasWriter, p);
      OneMoreRelease(t, ids, live, hasWriter, p);
      forall i | 0 <= i < |objects| ensures ReleasedInTurn(before[i], t, ids, objects[i], live, p) {
        StillInTurn(before[i], t, ids, n, objects[i], live, p);
      }
    }
  }

  /** The owned objects with a live sink, in key order. */
  lemma {:induction false} WithSinkLists(t: Table.Table, ids: seq<string>, keys: set<string>, live: set<Obj>)
    requires Lists(ids, keys)
    ensures Lists(WithSink(t, ids, live), set o | o in keys && Table.SinkOf(t, o, live).Some?)
  {
    if ids != [] {
      var done, next := ids[..|ids| - 1], ids[|ids| - 1];
      FrontLists(ids, keys);
      WithSinkLists(t, done, keys - {next}, live);
      var some := set o | o in keys - {next} && Table.SinkOf(t, o, live).Some?;
      if Table.SinkOf(t, next, live).Some? {
        ExtendListing(WithSink(t, done, live), some, next);
        assert some + {next} == set o | o in keys && Table.SinkOf(t, o, live).Some?;
      } else {
        assert some == set o | o in keys && Table.SinkOf(t, o, live).Some?;
      }
    }
  }

  /** Main result: with or without a write function, the destructor releases each live sink of its
      objects exactly once, in key order, and no other. Each release finds its own object and the
      later ones still assigned to the node, and the earlier ones unset. */
  lemma EachOwnedSinkIsReleasedOnce(t: Table.Table, id: Id, live: set<Obj>, hasWriter: bool, p: Invocations.Pending)
    ensures var owned := Table.Owned(t, id);
            var objects := InOrder(set o | o in owned && Table.SinkOf(t, o, live).Some?);
            var released := Releases(UnlinkEffects(t, InOrder(owned), live, hasWriter, p));
            && |released| == |objects|
            && forall i | 0 <= i < |objects| ::
                 && Table.SinkOf(t, objects[i], live).Some?
                 && released[i].what == OnRelease(Table.SinkOf(t, objects[i], live).value)
                 && forall o | o in owned ::
                      Table.OwnerOf(released[i].entries, o) == if Below(o, objects[i]) then INVALID_ID else id
  {
    var owned := Table.Owned(t, id);
    var ids := InOrder(owned);
    var some := set o | o in owned && Table.SinkOf(t, o, live).Some?;
    var objects := WithSink(t, ids, live);
    var released := Releases(UnlinkEffects(t, ids, live, hasWriter, p));
    WithSinkLists(t, ids, owned, live);
    ListingIsUnique(objects, InOrder(some), some);
    ReleasesFollowTheList(t, ids, live, hasWriter, p);
    forall i | 0 <= i < |objects|
      ensures Table.SinkOf(t, objects[i], live).Some?
      ensures released[i].what == OnRelease(Table.SinkOf(t, objects[i], live).value)
      ensures forall o | o in owned ::
                Table.OwnerOf(released[i].entries, o) == if Below(o, objects[i]) then INVALID_ID else id
    {
      assert ReleasedInTurn(released[i], t, ids, objects[i], live, p);
      var k :| 0 <= k < |ids| && ids[k] == objects[i] &&
        released[i].entries == Table.UnsetEach(t, ids[..k]);
      UnsetSoFar(t, id, ids, k);
    }
  }

  /** A node created while the storage is full has the invalid id: its destructor releases and unlinks
      an object that no node ever linked. */
  lemma NodeWithoutIdReleasesStrangers(objectId: string, p: Invocations.Pending)
    ensures var (full, first) := Storage.Add(Storage.Empty(1), 7, {7, 8});
            first != INVALID_ID && Storage.Add(full, 8, {7, 8}) == (full, INVALID_ID)
    ensures var t := map[objectId := Table.Entry(Some(5), INVALID_ID)];
            var effects := UnlinkEffects(t, InOrder(Table.Owned(t, INVALID_ID)), {5}, true, p);
            && t == Table.AddSink(map[], 5, objectId, {5})
            && Releases(effects) == [Effect(OnRelease(5), t, p)]
            && Messages(effects) == [UnlinkMessage(objectId)]
  {
    Storage.FullStorageRefuses();
    var t := map[objectId := Table.Entry(Some(5), INVALID_ID)];
    OnlyOneIsOwned(t, objectId);
    OneObjectIsUnlinked(t, objectId, p);
  }

  lemma OnlyOneIsOwned(t: Table.Table, objectId: string)
    requires t.Keys == {objectId} && t[objectId].nodeId == INVALID_ID
    ensures InOrder(Table.Owned(t, INVALID_ID)) == [objectId]
  {
    assert Table.Owned(t, INVALID_ID) == {objectId};
    ListingIsUnique(InOrder({objectId}), [objectId], {objectId});
  }

  lemma OneObjectIsUnlinked(t: Table.Table, objectId: string, p: Invocations.Pending)
    requires Table.SinkOf(t, objectId, {5}) == Some(5)
    ensures var effects := UnlinkEffects(t, [objectId], {5}, true, p);
            Releases(effects) == [Effect(OnRelease(5), t, p)] && Messages(effects) == [UnlinkMessage(objectId)]
  {
    assert [objectId][..0] == [];
    assert UnlinkEffects(t, [], {5}, true, p) == [];
    OneMoreRelease(t, [objectId], {5}, true, p);
    OneUnlinkPerObject(t, [objectId], {5}, true, p);
  }

  /** In the middle of the loop exactly the objects below the next one are unset. */
  lemma UnsetSoFar(t: Table.Table, id: Id, ids: seq<string>, k: nat)
    requires Lists(ids, Table.Owned(t, id)) && k < |ids|
    ensures forall o | o in Table.Owned(t, id) ::
              Table.OwnerOf(Table.UnsetEach(t, ids[..k]), o) == if Below(o, ids[k]) then INVALID_ID else id
  {
    forall o | o in Table.Owned(t, id)
      ensures Table.OwnerOf(Table.UnsetEach(t, ids[..k]), o) == if Below(o, ids[k]) then INVALID_ID else id
    {
      Table.UnsetEachAt(t, ids[..k], o);
      var i :| 0 <= i < |ids| && ids[i] == o;
      BelowIsIrreflexive(ids[k]);
      if i < k {
        assert ids[..k][i] == o && Below(o, ids[k]);
      } else {
        if k < i && Below(ids[i], ids[k]) { BelowIsTransitive(ids[i], ids[k], ids[i]); }
        BelowIsIrreflexive(ids[i]);
        assert forall j | 0 <= j < k :: Below(ids[j], o);
        assert o !in ids[..k];
      }
    }
  }

  /** What a message from the server leads to on the sinks: chosen by the object part of the id. */
  function SinkOuts(t: Table.Table, c: Call, live: set<Obj>): seq<Outside> {
    match c
    case Init(objectId, props) =>
      var sink := Table.SinkOf(t, objectId, live);
      if sink.Some? then [OnInit(sink.value, objectId, props)] else []
    case PropertyChange(propertyId, value) =>
      var sink := Table.SinkOf(t, Names.GetObjectId(propertyId), live);
      if sink.Some? then [OnPropertyChanged(sink.value, propertyId, value)] else []
    case Signal(signalId, args) =>
      var sink := Table.SinkOf(t, Names.GetObjectId(signalId), live);
      if sink.Some? then [OnSignal(sink.value, signalId, args)] else []
    case _ => []
  }

  function CallbackOuts(runs: seq<CallbackRun>): (outs: seq<Outside>)
    ensures |outs| == |runs| && forall i | 0 <= i < |runs| :: outs[i] == RanCallback(runs[i])
  {
    seq(|runs|, i requires 0 <= i < |runs| => RanCallback(runs[i]))
  }

  /** The live sink registered under an object. */
  ghost predicate HasSink(t: Table.Table, objectId: string, sink: Obj, live: set<Obj>) {
    objectId in t && t[objectId].sink == Some(sink) && sink in live
  }

  /** Main result: each message the server sends about an object calls exactly its live sink, once, in
      the way of the message and with its id and payload. */
  lemma ServerMessagesCallTheSink(t: Table.Table, objectId: string, member: string, payload: Json, sink: Obj,
                                  live: set<Obj>)
    requires HasSink(t, objectId, sink, live)
    ensures Dispatch(InitMessage(objectId, payload)).Ok?
    ensures SinkOuts(t, Dispatch(InitMessage(objectId, payload)).value, live) == [OnInit(sink, objectId, payload)]
    ensures Names.SlashFree(objectId) ==>
              var id := Names.CreateMemberId(objectId, member);
              var changed := Dispatch(PropertyChangeMessage(id, payload));
              var signalled := Dispatch(SignalMessage(id, payload));
              && changed.Ok? && SinkOuts(t, changed.value, live) == [OnPropertyChanged(sink, id, payload)]
              && signalled.Ok? && SinkOuts(t, signalled.value, live) == [OnSignal(sink, id, payload)]
  {
    RoundTrip(Init(objectId, payload));
    if Names.SlashFree(objectId) { MemberMessagesReachTheirSink(t, objectId, member, payload, live); }
  }

  /** Nobody else is called: without a live sink of the object there is no call, and messages of other
      kinds call no sink at all. */
  lemma OnlyRegisteredSinksAreCalled(t: Table.Table, c: Call, live: set<Obj>)
    requires SinkOuts(t, c, live) != []
    ensures || (c.Init? && exists sink :: HasSink(t, c.objectId, sink, live))
            || ((c.PropertyChange? || c.Signal?)
                && exists sink :: HasSink(t, Names.GetObjectId(c.memberId), sink, live))
  {
    if c.Init? {
      assert HasSink(t, c.objectId, Table.SinkOf(t, c.objectId, live).value, live);
    } else {
      var objectId := Names.GetObjectId(c.memberId);
      assert HasSink(t, objectId, Table.SinkOf(t, objectId, live).value, live);
    }
  }

  /** An unlink releases a live sink before its message goes out. */
  lemma ReleaseComesFirst(t: Table.Table, objectId: string, sink: Obj, live: set<Obj>)
    requires HasSink(t, objectId, sink, live)
    ensures UnlinkOuts(t, objectId, live, true) == [OnRelease(sink), Wrote(UnlinkMessage(objectId))]
    ensures UnlinkOuts(t, objectId, live, false) == [OnRelease(sink)]
  {
  }

  /** Main result: a property change or signal built for a slash-free object reaches the live sink
      registered under that object, and no other, whatever the member part looks like. */
  lemma MemberMessagesReachTheirSink(t: Table.Table, objectId: string, member: string, payload: Json, live: set<Obj>)
    requires Names.SlashFree(objectId)
    ensures var id := Names.CreateMemberId(objectId, member);
            var sink := Table.SinkOf(t, objectId, live);
            && Dispatch(PropertyChangeMessage(id, payload)) == Ok(PropertyChange(id, payload))
            && Dispatch(SignalMessage(id, payload)) == Ok(Signal(id, payload))
            && SinkOuts(t, PropertyChange(id, payload), live) ==
               (if sink.Some? then [OnPropertyChanged(sink.value, id, payload)] else [])
            && SinkOuts(t, Signal(id, payload), live) ==
               (if sink.Some? then [OnSignal(sink.value, id, payload)] else [])
  {
    Names.SplitGivesObject(objectId, member);
    RoundTrip(PropertyChange(Names.CreateMemberId(objectId, member), payload));
    RoundTrip(Signal(Names.CreateMemberId(objectId, member), payload));
  }

  class ClientNode {
    const registry: ClientRegistry
    const nodeId: Id
    /** Whether `onWrite` was given a function; without one messages are dropped. */
    var hasWriter: bool
    var nextRequestId: nat
    var invokesPending: map<nat, Callback>
    /** The outside calls made so far. */
    var effects: seq<Effect>

    ghost predicate Valid()
      reads this, registry, registry.nodes
    {
      registry.Valid() && nextRequestId < UINT_RANGE
    }

    function Pending(): Invocations.Pending
      reads this
    {
      Invocations.Pending(nextRequestId, invokesPending)
    }

    /** `create`: the node registers itself. */
    constructor (registry: ClientRegistry, self: Obj, live: set<Obj>)
      requires registry.Valid()
      modifies registry.nodes
      ensures Valid() && this.registry == registry
      ensures (registry.nodes.State(), nodeId) == Storage.Add(old(registry.nodes.State()), self, live)
      ensures !hasWriter && effects == [] && Pending() == Invocations.Pending(0, map[])
    {
      var id := registry.RegisterNode(self, live);
      this.registry := registry;
      nodeId := id;
      hasWriter, effects := false, [];
      nextRequestId, invokesPending := 0, map[];
    }

    /** Any call to the outside. */
    method Call(what: Outside)
      modifies `effects
      ensures effects == old(effects) + Seen([what], registry.entries, Pending())
    {
      effects := effects + [Effect(what, registry.entries, Pending())];
    }

    method EmitWrite(msg: Json)
      modifies `effects
      ensures effects == old(effects) + Seen(Write(msg, hasWriter), registry.entries, Pending())
    {
      if hasWriter {
        Call(Wrote(msg));
      }
    }

    /** The message goes out before the object changes hands. */
    method LinkRemote(objectId: string)
      modifies `effects, registry`entries
      ensures effects == old(effects) + Seen(Write(LinkMessage(objectId), hasWriter), old(registry.entries), Pending())
      ensures registry.entries == Table.SetNode(Table.UnsetNode(old(registry.entries), objectId), nodeId, objectId)
    {
      EmitWrite(LinkMessage(objectId));
      registry.UnsetNode(objectId);
      registry.SetNode(nodeId, objectId);
    }

    /** The sink is released and the message goes out while the object is still assigned. */
    method UnlinkRemote(objectId: string, live: set<Obj>)
      modifies `effects, registry`entries
      ensures effects == old(effects) +
                         Seen(UnlinkOuts(old(registry.entries), objectId, live, hasWriter),
                              old(registry.entries), Pending())
      ensures registry.entries == Table.UnsetNode(old(registry.entries), objectId)
    {
      var sink := registry.GetSink(objectId, live);
      if sink.Some? {
        Call(OnRelease(sink.value));
      }
      EmitWrite(UnlinkMessage(objectId));
      registry.UnsetNode(objectId);
    }

    /** The callback is in the table before the message goes out, so that no answer can miss it. */
    method InvokeRemote(methodId: string, args: Json, callback: Callback)
      requires Valid()
      modifies `effects, `nextRequestId, `invokesPending
      ensures Valid()
      ensures Pending() == Issue(old(Pending()), callback).0
      ensures effects == old(effects) +
                         Seen(Write(InvokeMessage(Issue(old(Pending()), callback).1, methodId, args), hasWriter),
                              registry.entries, Pending())
    {
      nextRequestId := ToUint(nextRequestId + 1);
      var requestId := nextRequestId;
      invokesPending := invokesPending[requestId := callback];
      EmitWrite(InvokeMessage(requestId, methodId, args));
    }

    method SetRemoteProperty(propertyId: string, value: Json)
      modifies `effects
      ensures effects == old(effects) +
                         Seen(Write(SetPropertyMessage(propertyId, value), hasWriter), registry.entries, Pending())
    {
      EmitWrite(SetPropertyMessage(propertyId, value));
    }

    /** The destructor. It unlinks the objects the registry listed for this node, in key order, while
        each unlink rewrites the registry; then it gives the id back. Other nodes' entries stay. */
    method Destroy(live: set<Obj>)
      requires Valid()
      modifies `effects, registry, registry.nodes
      ensures registry.Valid()
      ensures registry.entries == Table.Release(old(registry.entries), nodeId)
      ensures registry.nodes.State() == if nodeId == INVALID_ID then old(registry.nodes.State())
                                        else Storage.Remove(old(registry.nodes.State()), nodeId)
      ensures effects == old(effects) +
                         UnlinkEffects(old(registry.entries), InOrder(Table.Owned(old(registry.entries), nodeId)),
                                       live, hasWriter, Pending())
    {
      ghost var before := registry.entries;
      var ids := registry.GetObjectIds(nodeId);
      UnlinkEach(ids, live);
      Table.UnsettingTheOwnedReleases(before, nodeId, ids);
      ReleasingTwiceIsReleasing(before, nodeId);
      ListingIsUnique(ids, InOrder(Table.Owned(before, nodeId)), Table.Owned(before, nodeId));
      registry.UnregisterNode(nodeId);
    }

    /** The loop of the destructor. */
    method UnlinkEach(ids: seq<string>, live: set<Obj>)
      modifies `effects, registry`entries
      ensures registry.entries == Table.UnsetEach(old(registry.entries), ids)
      ensures effects == old(effects) + UnlinkEffects(old(registry.entries), ids, live, hasWriter, Pending())
    {
      ghost var before := registry.entries;
      for i := 0 to |ids|
        invariant registry.entries == Table.UnsetEach(before, ids[..i])
        invariant effects == old(effects) + UnlinkEffects(before, ids[..i], live, hasWriter, Pending())
      {
        UnlinkingOneMore(before, ids, i, live, hasWriter, Pending());
        UnlinkRemote(ids[i], live);
      }
      assert ids[..|ids|] == ids;
    }

    /** Errors and answers that arrive for this node. Other messages are for the server side. */
    method HandleMessage(msg: Json, live: set<Obj>)
      requires Valid()
      modifies `effects, `invokesPending
      ensures Valid()
      ensures Dispatch(msg).Ok? ==>
                var c := Dispatch(msg).value;
                && Pending() == Answer(old(Pending()), c).0
                && effects == old(effects) +
                              Seen(SinkOuts(registry.entries, c, live) + CallbackOuts(Answer(old(Pending()), c).1),
                                   registry.entries, Pending())
      ensures Dispatch(msg).Err? ==> Pending() == old(Pending()) && effects == old(effects)
    {
      var dispatched := Dispatch(msg);
      if dispatched.Ok? {
        match dispatched.value
        case Init(objectId, props) => HandleInit(objectId, props, live);
        case PropertyChange(propertyId, value) => HandlePropertyChange(propertyId, value, live);
        case Signal(signalId, args) => HandleSignal(signalId, args, live);
        case InvokeReply(requestId, methodId, value) => HandleInvokeReply(requestId, methodId, value);
        case Error(msgType, requestId, error) => HandleError(msgType, requestId, error);
        case _ =>
      }
    }

    method HandleInit(objectId: string, props: Json, live: set<Obj>)
      modifies `effects
      ensures effects == old(effects) +
                         Seen(SinkOuts(registry.entries, Init(objectId, props), live), registry.entries, Pending())
    {
      var sink := registry.GetSink(objectId, live);
      if sink.Some? {
        Call(OnInit(sink.value, objectId, props));
      }
    }

    method HandlePropertyChange(propertyId: string, value: Json, live: set<Obj>)
      modifies `effects
      ensures effects == old(effects) +
                         Seen(SinkOuts(registry.entries, PropertyChange(propertyId, value), live),
                              registry.entries, Pending())
    {
      var sink := registry.GetSink(Names.GetObjectId(propertyId), live);
      if sink.Some? {
        Call(OnPropertyChanged(sink.value, propertyId, value));
      }
    }

    method HandleSignal(signalId: string, args: Json, live: set<Obj>)
      modifies `effects
      ensures effects == old(effects) +
                         Seen(SinkOuts(registry.entries, Signal(signalId, args), live), registry.entries, Pending())
    {
      var sink := registry.GetSink(Names.GetObjectId(signalId), live);
      if sink.Some? {
        Call(OnSignal(sink.value, signalId, args));
      }
    }

    method HandleInvokeReply(requestId: nat, methodId: string, value: Json)
      modifies `effects, `invokesPending
      ensures Pending() == Answer(old(Pending()), InvokeReply(requestId, methodId, value)).0
      ensures effects == old(effects) +
                         Seen(CallbackOuts(Answer(old(Pending()), InvokeReply(requestId, methodId, value)).1),
                              registry.entries, Pending())
    {
      TakeAndRun(requestId, ReplyArg(methodId, value));
    }

    method HandleError(msgType: int, requestId: int, error: string)
      modifies `effects, `invokesPending
      ensures Pending() == Answer(old(Pending()), Error(msgType, requestId, error)).0
      ensures effects == old(effects) +
                         Seen(CallbackOuts(Answer(old(Pending()), Error(msgType, requestId, error)).1),
                              registry.entries, Pending())
    {
      if msgType == INVOKE || msgType == INVOKE_REPLY {
        TakeAndRun(ToUint(requestId), ReplyArg("", Null));
      }
    }

    /** Takes the callback of an id out of the table, then runs it: it finds itself gone. */
    method TakeAndRun(id: nat, arg: ReplyArg)
      modifies `effects, `invokesPending
      ensures Pending() == Resolve(old(Pending()), id)
      ensures effects == old(effects) + Seen(CallbackOuts(RunsOf(old(Pending()), id, arg)), registry.entries, Pending())
    {
      var callback := Callback(0, true);
      if id in invokesPending {
        callback := invokesPending[id];
      }
      invokesPending := invokesPending - {id};
      if !callback.isNull {
        Call(RanCallback(CallbackRun(callback.tag, arg)));
      }
    }
  }

  lemma UnlinkingOneMore(t: Table.Table, ids: seq<string>, i: nat, live: set<Obj>, hasWriter: bool,
                         p: Invocations.Pending)
    requires i < |ids|
    ensures var now := Table.UnsetEach(t, ids[..i]);
            && Table.UnsetEach(t, ids[..i + 1]) == Table.UnsetNode(now, ids[i])
            && UnlinkEffects(t, ids[..i + 1], live, hasWriter, p) ==
               UnlinkEffects(t, ids[..i], live, hasWriter, p) + Seen(UnlinkOuts(now, ids[i], live, hasWriter), now, p)
  {
    assert ids[..i + 1][..i] == ids[..i];
    Table.UnsetEachAt(t, ids[..i], ids[i]);
  }

  lemma ReleasingTwiceIsReleasing(t: Table.Table, id: Id)
    ensures Table.Release(Table.Release(t, id), id) == Table.Release(t, id)
  {
  }
}
