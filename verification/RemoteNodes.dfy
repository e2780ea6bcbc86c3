/** The class `RemoteNode`, proved against `RemoteTable` and the builders. */
module RemoteNodes {
  import opened Types
  import opened KeyOrder
  import opened Protocol
  import opened RemoteRegistries
  import Names
  import Storage
  import Table = RemoteTable

  /** A call the node makes to the outside: the write function or a source. */
  datatype Outside =
    | Wrote(msg: Json)
    | OnLinked(source: Obj, objectId: string)
    | OnUnlinked(source: Obj, objectId: string)
    | OnSetProperty(source: Obj, propertyId: string, value: Json)
    | OnInvoke(source: Obj, methodId: string, args: Json)

  /** An outside call together with the registry as the callee finds it: the sequence of effects
      fixes the order of calls and state changes. */
  datatype Effect = Effect(what: Outside, entries: Table.Table)

  function Seen(outs: seq<Outside>, t: Table.Table): (effects: seq<Effect>)
    ensures |effects| == |outs| && forall i | 0 <= i < |outs| :: effects[i] == Effect(outs[i], t)
  {
    seq(|outs|, i requires 0 <= i < |outs| => Effect(outs[i], t))
  }

  /** What a source does during one call: the property changes and signals it sends through the
      node, in order, and the value it returns (its properties when it is being linked). */
  datatype Reaction = Reaction(notes: seq<Call>, value: Json)

  predicate AreNotes(notes: seq<Call>) {
    forall i | 0 <= i < |notes| :: notes[i].PropertyChange? || notes[i].Signal?
  }

  /** The source a message from the client is meant for. */
  function SourceFor(t: Table.Table, c: Call, live: set<Obj>): Option<Obj> {
    match c
    case Link(objectId) => Table.SourceOf(t, objectId, live)
    case Unlink(objectId) => Table.SourceOf(t, objectId, live)
    case SetProperty(propertyId, _) => Table.SourceOf(t, Names.GetObjectId(propertyId), live)
    case Invoke(_, methodId, _) => Table.SourceOf(t, Names.GetObjectId(methodId), live)
    case _ => None
  }

  function CallOnSource(source: Obj, c: Call): seq<Outside> {
    match c
    case Link(objectId) => [OnLinked(source, objectId)]
    case Unlink(objectId) => [OnUnlinked(source, objectId)]
    case SetProperty(propertyId, value) => [OnSetProperty(source, propertyId, value)]
    case Invoke(_, methodId, args) => [OnInvoke(source, methodId, args)]
    case _ => []
  }

  /** The messages sent while a message from the client is handled: the source's own, then the
      answer to a link or an invocation. */
  function Responses(c: Call, reaction: Reaction): seq<Call> {
    match c
    case Link(objectId) => reaction.notes + [Init(objectId, reaction.value)]
    case Invoke(requestId, methodId, _) => reaction.notes + [InvokeReply(requestId, methodId, reaction.value)]
    case _ => reaction.notes
  }

  /** What the message does to the registry, when its source is there. */
  function Relink(t: Table.Table, s: Storage.State, id: Id, c: Call, liveNodes: set<Obj>): Table.Table {
    match c
    case Link(objectId) => AddNodeIfAlive(t, s, id, objectId, liveNodes)
    case Unlink(objectId) => Table.RemoveNode(t, id, objectId)
    case _ => t
  }

  /** Sending calls: without a write function nothing is sent. */
  function Writes(calls: seq<Call>, hasWriter: bool): (outs: seq<Outside>)
    ensures |outs| == if hasWriter then |calls| else 0
    ensures forall i | 0 <= i < |outs| :: outs[i] == Wrote(Encode(calls[i]))
  {
    if hasWriter then seq(|calls|, i requires 0 <= i < |calls| => Wrote(Encode(calls[i]))) else []
  }

  /** Everything a message leads to: the call of its source, then the responses. A source that is
      being linked finds the node in the registry already, one being unlinked finds it there still. */
  function HandledOuts(source: Obj, c: Call, reaction: Reaction, hasWriter: bool): seq<Outside> {
    CallOnSource(source, c) + Writes(Responses(c, reaction), hasWriter)
  }

  /** The live source registered under an object. */
  ghost predicate HasSource(t: Table.Table, objectId: string, source: Obj, live: set<Obj>) {
    objectId in t && t[objectId].source == Some(source) && source in live
  }

  /** A message whose source is there: it is dispatched to it, it is called first, once, and in the way
      of the message; then its notes are sent, then the answer. */
  ghost predicate IsServed(t: Table.Table, live: set<Obj>, msg: Json, source: Obj, call: Outside, reaction: Reaction,
                           answer: seq<Json>) {
    Dispatch(msg).Ok? &&
    var c := Dispatch(msg).value;
    && SourceFor(t, c, live) == Some(source)
    && HandledOuts(source, c, reaction, false) == [call]
    && HandledOuts(source, c, reaction, true) ==
       [call] + Writes(reaction.notes, true) + seq(|answer|, i requires 0 <= i < |answer| => Wrote(answer[i]))
  }

  /** Main result: a link and an unlink call exactly the live source registered under the object; a link
      is answered with the collected properties. */
  lemma LinksAreServed(t: Table.Table, objectId: string, source: Obj, live: set<Obj>, reaction: Reaction)
    requires HasSource(t, objectId, source, live)
    ensures IsServed(t, live, LinkMessage(objectId), source, OnLinked(source, objectId), reaction,
                     [InitMessage(objectId, reaction.value)])
    ensures IsServed(t, live, UnlinkMessage(objectId), source, OnUnlinked(source, objectId), reaction, [])
  {
    IsServedAs(t, live, Link(objectId), source, OnLinked(source, objectId), reaction, [Init(objectId, reaction.value)]);
    IsServedAs(t, live, Unlink(objectId), source, OnUnlinked(source, objectId), reaction, []);
  }

  /** Main result: a property request calls it with the property and the value. */
  lemma PropertyRequestsAreServed(t: Table.Table, objectId: string, member: string, value: Json, source: Obj,
                                  live: set<Obj>, reaction: Reaction)
    requires HasSource(t, objectId, source, live) && Names.SlashFree(objectId)
    ensures var id := Names.CreateMemberId(objectId, member);
            IsServed(t, live, SetPropertyMessage(id, value), source, OnSetProperty(source, id, value), reaction, [])
  {
    var id := Names.CreateMemberId(objectId, member);
    Names.SplitGivesObject(objectId, member);
    IsServedAs(t, live, SetProperty(id, value), source, OnSetProperty(source, id, value), reaction, []);
  }

  /** Main result: an invocation calls it with method and arguments, and is answered under its own
      request id with what the source returned. */
  lemma InvocationsAreServed(t: Table.Table, objectId: string, member: string, args: Json, requestId: nat, source: Obj,
                             live: set<Obj>, reaction: Reaction)
    requires HasSource(t, objectId, source, live) && Names.SlashFree(objectId) && requestId < UINT_RANGE
    ensures var id := Names.CreateMemberId(objectId, member);
            IsServed(t, live, InvokeMessage(requestId, id, args), source, OnInvoke(source, id, args), reaction,
                     [InvokeReplyMessage(requestId, id, reaction.value)])
  {
    var id := Names.CreateMemberId(objectId, member);
    Names.SplitGivesObject(objectId, member);
    IsServedAs(t, live, Invoke(requestId, id, args), source, OnInvoke(source, id, args), reaction,
               [InvokeReply(requestId, id, reaction.value)]);
  }

  lemma IsServedAs(t: Table.Table, live: set<Obj>, c: Call, source: Obj, call: Outside, reaction: Reaction,
                   answer: seq<Call>)
    requires c.Typed() && SourceFor(t, c, live) == Some(source) && CallOnSource(source, c) == [call]
    requires Responses(c, reaction) == reaction.notes + answer && |answer| <= 1
    ensures IsServed(t, live, Encode(c), source, call, reaction, if answer == [] then [] else [Encode(answer[0])])
  {
    RoundTrip(c);
    var sent := if answer == [] then [] else [Encode(answer[0])];
    assert Writes(reaction.notes + answer, true) ==
           Writes(reaction.notes, true) + seq(|sent|, i requires 0 <= i < |sent| => Wrote(sent[i]));
  }

  /** Nobody else is called: a source that is found is registered under the object of a client's message,
      and lives. Without one there is no call, and messages of other kinds are for no source at all. */
  lemma OnlyRegisteredSourcesAreCalled(t: Table.Table, c: Call, live: set<Obj>)
    requires SourceFor(t, c, live).Some?
    ensures var source := SourceFor(t, c, live).value;
            || ((c.Link? || c.Unlink?) && HasSource(t, c.objectId, source, live))
            || ((c.SetProperty? || c.Invoke?) && HasSource(t, Names.GetObjectId(c.memberId), source, live))
  {
  }

  /** A link adds its pair if the node lives, an unlink removes it, and other messages change nothing. */
  lemma RelinkChangesOnePair(t: Table.Table, s: Storage.State, id: Id, c: Call, live: set<Obj>, n: Id, o: string)
    requires Table.WellFormed(t)
    ensures Table.Linked(Relink(t, s, id, c, live), n, o) <==>
            if c == Link(o) && n == id && o in t && id in s.objects && s.objects[id] in live then true
            else if c == Unlink(o) && n == id then false
            else Table.Linked(t, n, o)
  {
    if c.Link? { AddNodeNeedsALiveNode(t, s, id, c.objectId, live); }
    if c.Unlink? { Table.RemoveNodeRemovesOnePair(t, id, c.objectId); }
  }

  /** Main result: a property or method message built for a slash-free object goes to the live
      source registered under that object, and to no other. */
  lemma MemberMessagesReachTheirSource(t: Table.Table, objectId: string, member: string, payload: Json,
                                       requestId: nat, live: set<Obj>)
    requires Names.SlashFree(objectId) && requestId < UINT_RANGE
    ensures var id := Names.CreateMemberId(objectId, member);
            && Dispatch(SetPropertyMessage(id, payload)) == Ok(SetProperty(id, payload))
            && Dispatch(InvokeMessage(requestId, id, payload)) == Ok(Invoke(requestId, id, payload))
            && SourceFor(t, SetProperty(id, payload), live) == Table.SourceOf(t, objectId, live)
            && SourceFor(t, Invoke(requestId, id, payload), live) == Table.SourceOf(t, objectId, live)
  {
    Names.SplitGivesObject(objectId, member);
    RoundTrip(SetProperty(Names.CreateMemberId(objectId, member), payload));
    RoundTrip(Invoke(requestId, Names.CreateMemberId(objectId, member), payload));
  }

  class RemoteNode {
    const registry: RemoteRegistry
    const nodeId: Id
    var hasWriter: bool
    /** The outside calls made so far. */
    var effects: seq<Effect>

    ghost predicate Valid()
      reads this, registry, registry.nodes
    {
      registry.Valid()
    }

    /** `createRemoteNode`: the node registers itself. */
    constructor (registry: RemoteRegistry, self: Obj, live: set<Obj>)
      requires registry.Valid()
      modifies registry.nodes
      ensures Valid() && this.registry == registry && !hasWriter && effects == []
      ensures (registry.nodes.State(), nodeId) == Storage.Add(old(registry.nodes.State()), self, live)
    {
      var id := registry.RegisterNode(self, live);
      this.registry := registry;
      nodeId := id;
      hasWriter, effects := false, [];
    }

    /** The destructor. */
    method Destroy()
      requires Valid()
      modifies registry, registry.nodes
      ensures registry.Valid()
      ensures registry.entries == if nodeId == INVALID_ID then old(registry.entries)
                                  else Table.Release(old(registry.entries), nodeId)
      ensures registry.nodes.State() == if nodeId == INVALID_ID then old(registry.nodes.State())
                                        else Storage.Remove(old(registry.nodes.State()), nodeId)
    {
      registry.UnregisterNode(nodeId);
    }

    /** Any call to the outside. */
    method Call(what: Outside)
      modifies `effects
      ensures effects == old(effects) + Seen([what], registry.entries)
    {
      effects := effects + [Effect(what, registry.entries)];
    }

    method EmitWrite(msg: Json)
      modifies `effects
      ensures effects == old(effects) + Seen(if hasWriter then [Wrote(msg)] else [], registry.entries)
    {
      if hasWriter {
        Call(Wrote(msg));
      }
    }

    method NotifyPropertyChange(propertyId: string, value: Json)
      modifies `effects
      ensures effects == old(effects) + Seen(Writes([PropertyChange(propertyId, value)], hasWriter), registry.entries)
    {
      EmitWrite(PropertyChangeMessage(propertyId, value));
    }

    method NotifySignal(signalId: string, args: Json)
      modifies `effects
      ensures effects == old(effects) + Seen(Writes([Signal(signalId, args)], hasWriter), registry.entries)
    {
      EmitWrite(SignalMessage(signalId, args));
    }

    /** A source sends its notes through this node. */
    method SourceSends(notes: seq<Call>)
      requires AreNotes(notes)
      modifies `effects
      ensures effects == old(effects) + Seen(Writes(notes, hasWriter), registry.entries)
    {
      for i := 0 to |notes|
        invariant effects == old(effects) + Seen(Writes(notes[..i], hasWriter), registry.entries)
      {
        match notes[i] {
          case PropertyChange(id, value) => NotifyPropertyChange(id, value);
          case Signal(id, args) => NotifySignal(id, args);
        }
        assert notes[..i + 1] == notes[..i] + [notes[i]];
        WritesAppend(notes[..i], [notes[i]], hasWriter, registry.entries);
      }
      assert notes[..|notes|] == notes;
    }

    /** Any message that arrives for this node: its source is looked up, called, and answered.
        A message whose source is missing changes nothing and is not answered. */
    method HandleMessage(msg: Json, liveSources: set<Obj>, liveNodes: set<Obj>, reaction: Reaction)
      requires Valid() && AreNotes(reaction.notes)
      modifies `effects, registry`entries
      ensures Valid()
      ensures Dispatch(msg).Ok? && SourceFor(old(registry.entries), Dispatch(msg).value, liveSources).Some? ==>
                var c := Dispatch(msg).value;
                var source := SourceFor(old(registry.entries), c, liveSources).value;
                && registry.entries == Relink(old(registry.entries), registry.nodes.State(), nodeId, c, liveNodes)
                && effects == old(effects) +
                              Seen(HandledOuts(source, c, reaction, hasWriter),
                                   if c.Unlink? then old(registry.entries) else registry.entries)
      ensures Dispatch(msg).Err? || SourceFor(old(registry.entries), Dispatch(msg).value, liveSources).None? ==>
                registry.entries == old(registry.entries) && effects == old(effects)
    {
      var dispatched := Dispatch(msg);
      if dispatched.Ok? {
        match dispatched.value
        case Link(objectId) => HandleLink(objectId, liveSources, liveNodes, reaction);
        case Unlink(objectId) => HandleUnlink(objectId, liveSources, reaction);
        case SetProperty(propertyId, value) => HandleSetProperty(propertyId, value, liveSources, reaction);
        case Invoke(requestId, methodId, args) => HandleInvoke(requestId, methodId, args, liveSources, reaction);
        case _ =>
      }
    }

    /** The registry first, then the source, then Init. */
    method HandleLink(objectId: string, liveSources: set<Obj>, liveNodes: set<Obj>, reaction: Reaction)
      requires Valid() && AreNotes(reaction.notes)
      modifies `effects, registry`entries
      ensures Valid()
      ensures var source := Table.SourceOf(old(registry.entries), objectId, liveSources);
              if source.Some? then
                && registry.entries ==
                   AddNodeIfAlive(old(registry.entries), registry.nodes.State(), nodeId, objectId, liveNodes)
                && effects == old(effects) +
                              Seen(HandledOuts(source.value, Link(objectId), reaction, hasWriter), registry.entries)
              else registry.entries == old(registry.entries) && effects == old(effects)
    {
      var source := registry.GetSource(objectId, liveSources);
      if source.Some? {
        registry.AddNodeForSource(nodeId, objectId, liveNodes);
        Call(OnLinked(source.value, objectId));
        SourceSends(reaction.notes);
        var props := reaction.value;
        EmitWrite(InitMessage(objectId, props));
        LinkIsHandled(old(effects), source.value, objectId, reaction, hasWriter, registry.entries);
      }
    }

    /** The source is told first, then the registry. */
    method HandleUnlink(objectId: string, liveSources: set<Obj>, reaction: Reaction)
      requires Valid() && AreNotes(reaction.notes)
      modifies `effects, registry`entries
      ensures Valid()
      ensures var source := Table.SourceOf(old(registry.entries), objectId, liveSources);
              if source.Some? then
                && registry.entries == Table.RemoveNode(old(registry.entries), nodeId, objectId)
                && effects == old(effects) +
                              Seen(HandledOuts(source.value, Unlink(objectId), reaction, hasWriter),
                                   old(registry.entries))
              else registry.entries == old(registry.entries) && effects == old(effects)
    {
      var source := registry.GetSource(objectId, liveSources);
      if source.Some? {
        Call(OnUnlinked(source.value, objectId));
        SourceSends(reaction.notes);
        NotesOnly(old(effects), OnUnlinked(source.value, objectId), reaction.notes, hasWriter, registry.entries);
        registry.RemoveNodeFromSource(nodeId, objectId);
      }
    }

    method HandleSetProperty(propertyId: string, value: Json, liveSources: set<Obj>, reaction: Reaction)
      requires Valid() && AreNotes(reaction.notes)
      modifies `effects
      ensures var source := Table.SourceOf(registry.entries, Names.GetObjectId(propertyId), liveSources);
              effects == old(effects) +
                         if source.Some?
                         then Seen(HandledOuts(source.value, SetProperty(propertyId, value), reaction, hasWriter),
                                   registry.entries)
                         else []
    {
      var source := registry.GetSource(Names.GetObjectId(propertyId), liveSources);
      if source.Some? {
        Call(OnSetProperty(source.value, propertyId, value));
        SourceSends(reaction.notes);
        NotesOnly(old(effects), OnSetProperty(source.value, propertyId, value), reaction.notes, hasWriter,
                  registry.entries);
      }
    }

    /** The source's notes first, then its reply under the same id. */
    method HandleInvoke(requestId: nat, methodId: string, args: Json, liveSources: set<Obj>, reaction: Reaction)
      requires Valid() && AreNotes(reaction.notes)
      modifies `effects
      ensures var source := Table.SourceOf(registry.entries, Names.GetObjectId(methodId), liveSources);
              effects == old(effects) +
                         if source.Some?
                         then Seen(HandledOuts(source.value, Invoke(requestId, methodId, args), reaction, hasWriter),
                                   registry.entries)
                         else []
    {
      var source := registry.GetSource(Names.GetObjectId(methodId), liveSources);
      if source.Some? {
        Call(OnInvoke(source.value, methodId, args));
        SourceSends(reaction.notes);
        var value := reaction.value;
        EmitWrite(InvokeReplyMessage(requestId, methodId, value));
        InvokeIsHandled(old(effects), source.value, requestId, methodId, args, reaction, hasWriter, registry.entries);
      }
    }
  }

  lemma WritesAppend(a: seq<Call>, b: seq<Call>, hasWriter: bool, t: Table.Table)
    ensures Seen(Writes(a + b, hasWriter), t) == Seen(Writes(a, hasWriter), t) + Seen(Writes(b, hasWriter), t)
  {
  }

  /** A source call, its notes and the answer, one after the other. */
  lemma OneAfterTheOther(before: seq<Effect>, call: Outside, notes: seq<Call>, answer: seq<Call>, hasWriter: bool,
                         t: Table.Table)
    ensures before + Seen([call], t) + Seen(Writes(notes, hasWriter), t) + Seen(Writes(answer, hasWriter), t)
            == before + Seen([call] + Writes(notes + answer, hasWriter), t)
  {
    WritesAppend(notes, answer, hasWriter, t);
    assert Seen([call] + Writes(notes + answer, hasWriter), t)
        == Seen([call], t) + Seen(Writes(notes + answer, hasWriter), t);
  }

  lemma LinkIsHandled(before: seq<Effect>, source: Obj, objectId: string, reaction: Reaction, hasWriter: bool,
                      t: Table.Table)
    ensures before + Seen([OnLinked(source, objectId)], t) + Seen(Writes(reaction.notes, hasWriter), t)
            + Seen(if hasWriter then [Wrote(InitMessage(objectId, reaction.value))] else [], t)
            == before + Seen(HandledOuts(source, Link(objectId), reaction, hasWriter), t)
  {
    var init := Init(objectId, reaction.value);
    assert Writes([init], hasWriter) == if hasWriter then [Wrote(Encode(init))] else [];
    OneAfterTheOther(before, OnLinked(source, objectId), reaction.notes, [init], hasWriter, t);
  }

  lemma InvokeIsHandled(before: seq<Effect>, source: Obj, requestId: nat, methodId: string, args: Json,
                        reaction: Reaction, hasWriter: bool, t: Table.Table)
    ensures before + Seen([OnInvoke(source, methodId, args)], t) + Seen(Writes(reaction.notes, hasWriter), t)
            + Seen(if hasWriter then [Wrote(InvokeReplyMessage(requestId, methodId, reaction.value))] else [], t)
            == before + Seen(HandledOuts(source, Invoke(requestId, methodId, args), reaction, hasWriter), t)
  {
    var reply := InvokeReply(requestId, methodId, reaction.value);
    assert Writes([reply], hasWriter) == if hasWriter then [Wrote(Encode(reply))] else [];
    OneAfterTheOther(before, OnInvoke(source, methodId, args), reaction.notes, [reply], hasWriter, t);
  }

  lemma NotesOnly(before: seq<Effect>, call: Outside, notes: seq<Call>, hasWriter: bool, t: Table.Table)
    ensures before + Seen([call], t) + Seen(Writes(notes, hasWriter), t)
            == before + Seen([call] + Writes(notes, hasWriter), t)
  {
    OneAfterTheOther(before, call, notes, [], hasWriter, t);
    assert notes + [] == notes;
  }
}
