/** Replication over any number of connections: which replicas follow the source? */
module CalcReplication {
  import opened Types
  import opened Protocol
  import opened Calc
  import Names

  /** One source, and per connection a sink that stays registered and a FIFO queue toward it.
      `node` is the connection whose remote node the source remembers, `last` the one that linked last,
      `closed` are the connections whose remote node was destroyed. The source insists on a node when it
      notifies, and has no way to see that the one it remembers was destroyed: without a node, and with
      one that is gone, the process stops behaving (`running` is false). */
  datatype State = State(
    total: int,
    node: Option<nat>,
    last: Option<nat>,
    closed: set<nat>,
    sinks: seq<Replica>,
    toClient: seq<seq<Call>>,
    running: bool)

  datatype Event =
    | Link(conn: nat)
    | Unlink(conn: nat)
    | SetProperty(conn: nat, propertyId: string, value: Json)
    | Invoke(conn: nat, requestId: nat, methodId: string, args: Json)
    | LocalAdd(amount: int)
    | LocalSub(amount: int)
    | LocalClear
    | Deliver(conn: nat)
    | Release(conn: nat)
    | Close(conn: nat)

  /** The remote node of the connection is there to handle messages. */
  predicate IsOpen(s: State, c: nat) {
    c < |s.sinks| && c !in s.closed
  }

  /** The event concerns an existing connection, and a member of this object. */
  predicate Enabled(s: State, e: Event) {
    s.running &&
    match e
    case Link(c) => IsOpen(s, c)
    case Unlink(c) => IsOpen(s, c)
    case SetProperty(c, id, _) => IsOpen(s, c) && Names.GetObjectId(id) == CALC
    case Invoke(c, _, id, _) => IsOpen(s, c) && Names.GetObjectId(id) == CALC
    case Close(c) => IsOpen(s, c)
    case LocalAdd(_) => true
    case LocalSub(_) => true
    case LocalClear => true
    case Deliver(c) => c < |s.sinks| && c < |s.toClient| && s.toClient[c] != []
    case Release(c) => c < |s.sinks|
  }

  function Queued(s: State, c: nat, calls: seq<Call>): State {
    if c < |s.toClient| then s.(toClient := s.toClient[c := s.toClient[c] + calls]) else s
  }

  /** The source does something and notifies its node. */
  function Acts(s: State, o: Outcome): State {
    if o.Threw? then s
    else if o.notes == [] then s.(total := o.total)
    else if Reached(s).None? then s.(total := o.total, running := false)
    else Queued(s.(total := o.total), s.node.value, o.notes)
  }

  /** The connection the source can notify: the one it remembers, if its node is still there. */
  function Reached(s: State): Option<nat> {
    if s.node.Some? && s.node.value !in s.closed then s.node else None
  }

  /** What the source does in an event, at a given total. */
  function Act(total: int, e: Event): Outcome {
    match e
    case SetProperty(_, id, value) => PropertySet(total, id, value)
    case Invoke(_, _, id, args) => Invoked(total, id, args)
    case LocalAdd(value) => Added(total, value)
    case LocalSub(value) => Subtracted(total, value)
    case LocalClear => Cleared(total)
    case _ => Done(total, [], Null)
  }

  function Next(s: State, e: Event): State
    requires Enabled(s, e)
  {
    match e
    case Link(c) => Queued(s.(node := Some(c), last := Some(c)), c, [Init(CALC, Props(s.total))])
    case Unlink(_) => s.(node := None)
    case SetProperty(_, _, _) => Acts(s, Act(s.total, e))
    case Invoke(c, requestId, id, _) =>
      var o := Act(s.total, e);
      var s' := Acts(s, o);
      if o.Threw? || !s'.running then s' else Queued(s', c, [InvokeReply(requestId, id, o.result)])
    case LocalAdd(_) => Acts(s, Act(s.total, e))
    case LocalSub(_) => Acts(s, Act(s.total, e))
    case LocalClear => Acts(s, Act(s.total, e))
    case Deliver(c) =>
      s.(sinks := s.sinks[c := Received(s.sinks[c], s.toClient[c][0])],
         toClient := s.toClient[c := s.toClient[c][1..]])
    case Release(c) => s.(sinks := s.sinks[c := s.sinks[c].(ready := false)])
    case Close(c) => s.(closed := s.closed + {c})
  }

  /** The sink once all queued messages have arrived. */
  function Eventually(r: Replica, queue: seq<Call>): Replica
    decreases |queue|
  {
    if queue == [] then r else Eventually(Received(r, queue[0]), queue[1..])
  }

  function EventualTotal(s: State, c: nat): int
    requires c < |s.sinks| && c < |s.toClient|
  {
    Eventually(s.sinks[c], s.toClient[c]).total
  }

  ghost predicate Inv(s: State) {
    && |s.sinks| == |s.toClient|
    && s.total == ToInt(s.total)
    && (s.last.Some? ==> s.last.value < |s.sinks|)
    && (s.node.Some? ==> s.node == s.last)
    && (s.last.Some? && s.running ==> EventualTotal(s, s.last.value) == s.total)
  }

  lemma {:induction false} EventuallyAppends(r: Replica, queue: seq<Call>, more: seq<Call>)
    ensures Eventually(r, queue + more) == Eventually(Eventually(r, queue), more)
    decreases |queue|
  {
    if queue == [] {
      assert queue + more == more;
    } else {
      assert (queue + more)[1..] == queue[1..] + more;
      EventuallyAppends(Received(r, queue[0]), queue[1..], more);
    }
  }

  lemma {:induction false} ReleaseDoesNotMatter(r: Replica, queue: seq<Call>)
    ensures Eventually(r.(ready := false), queue).total == Eventually(r, queue).total
    ensures Eventually(r.(ready := true), queue).total == Eventually(r, queue).total
    decreases |queue|
  {
    if queue != [] {
      var q, a, b := queue[1..], Received(r, queue[0]), Received(r.(ready := !r.ready), queue[0]);
      assert a.total == b.total && (b == a || b == a.(ready := !a.ready));
      ReleaseDoesNotMatter(a, q);
    }
  }

  lemma TotalIdIsCalcTotal()
    ensures Names.GetObjectId(TOTAL) == CALC && Names.GetMemberName(TOTAL) == "total"
    ensures Names.SlashFree(CALC)
  {
    assert Names.SlashFree("demo.Calc");
    assert Names.SlashFree("total");
    assert TOTAL == Names.CreateMemberId(CALC, "total");
    Names.SplitGivesObject(CALC, "total");
    Names.SplitGivesMember(CALC, "total");
  }

  /** Whatever the source sends leaves the receiver with the source's new total; when it sends
      nothing the total did not change. */
  ghost predicate Replicates(before: int, o: Outcome) {
    o.Done? ==>
      && o.total == ToInt(o.total)
      && (o.notes == [] ==> o.total == before)
      && (o.notes != [] ==> forall r :: Eventually(r, o.notes).total == o.total)
  }

  /** A note about the total, then at most one signal. */
  lemma NoteReplicates(id: string, t: int, more: seq<Call>)
    requires t == ToInt(t) && Names.GetObjectId(id) == CALC && Names.GetMemberName(id) == "total"
    requires |more| <= 1 && forall c | c in more :: c.Signal?
    ensures forall r :: Eventually(r, [PropertyChange(id, Int(t))] + more).total == t
  {
    var notes := [PropertyChange(id, Int(t))] + more;
    assert notes[1..] == more;
    SignedReadsBack(t);
    forall r ensures Eventually(r, notes).total == t {
      var r' := Received(r, notes[0]);
      assert r'.total == t && Eventually(r, notes) == Eventually(r', more);
      if more != [] {
        assert more[0] in more && more[1..] == [];
        assert Eventually(r', more) == Eventually(Received(r', more[0]), more[1..]);
      }
    }
  }

  lemma TotalNoteReplicates(before: int, t: int, more: seq<Call>, result: Json)
    requires t == ToInt(t) && |more| <= 1 && forall c | c in more :: c.Signal?
    ensures Replicates(before, Done(t, [PropertyChange(TOTAL, Int(t))] + more, result))
  {
    TotalIdIsCalcTotal();
    NoteReplicates(TOTAL, t, more);
  }

  lemma AddReplicates(total: int, value: int)
    ensures Replicates(total, Added(total, value))
  {
    var t := ToInt(total + value);
    TotalNoteReplicates(total, t, if t >= 10 then [Signal(HIT_UPPER, Array([Int(10)]))] else [], Int(t));
  }

  lemma SubReplicates(total: int, value: int)
    ensures Replicates(total, Subtracted(total, value))
  {
    var t := ToInt(total - value);
    TotalNoteReplicates(total, t, if t <= 0 then [Signal(HIT_LOWER, Array([Int(0)]))] else [], Int(t));
  }

  lemma ClearReplicates(total: int)
    ensures Replicates(total, Cleared(total))
  {
    TotalNoteReplicates(total, 0, [], Null);
    assert [PropertyChange(TOTAL, Int(0))] + [] == [PropertyChange(TOTAL, Int(0))];
  }

  lemma SetReplicates(total: int, id: string, value: Json)
    requires total == ToInt(total) && Names.GetObjectId(id) == CALC
    ensures Replicates(total, PropertySet(total, id, value))
  {
  }

  lemma InvokeReplicates(total: int, id: string, args: Json)
    requires total == ToInt(total)
    ensures Replicates(total, Invoked(total, id, args))
  {
    if FirstArg(args).Some? {
      AddReplicates(total, FirstArg(args).value);
      SubReplicates(total, FirstArg(args).value);
    }
    ClearReplicates(total);
  }

  /** An act of the source keeps the invariant, and leaves every other connection alone. */
  lemma ActsKeep(s: State, o: Outcome)
    requires Inv(s) && s.running && Replicates(s.total, o)
    ensures Inv(Acts(s, o))
    ensures |Acts(s, o).toClient| == |s.toClient| && Acts(s, o).sinks == s.sinks
    ensures forall c: nat | c < |s.toClient| && Reached(s) != Some(c) :: Acts(s, o).toClient[c] == s.toClient[c]
  {
    if o.Done? && o.notes != [] && s.node.Some? {
      var c := s.node.value;
      EventuallyAppends(s.sinks[c], s.toClient[c], o.notes);
    }
  }

  /** A reply to an invocation changes no connection's eventual total. */
  lemma ReplyDoesNotMatter(s: State, k: nat, reply: Call, c: nat)
    requires Inv(s) && reply.InvokeReply? && c < |s.sinks|
    ensures EventualTotal(Queued(s, k, [reply]), c) == EventualTotal(s, c)
  {
    if k == c {
      EventuallyAppends(s.sinks[c], s.toClient[c], [reply]);
      var r := Eventually(s.sinks[c], s.toClient[c]);
      assert Eventually(r, [reply]) == Eventually(Received(r, reply), [reply][1..]);
    }
  }

  lemma ReplyKeeps(s: State, c: nat, reply: Call)
    requires Inv(s) && reply.InvokeReply?
    ensures Inv(Queued(s, c, [reply]))
  {
    if s.last.Some? { ReplyDoesNotMatter(s, c, reply, s.last.value); }
  }

  lemma LinkKeeps(s: State, c: nat)
    requires Inv(s) && Enabled(s, Event.Link(c))
    ensures Inv(Next(s, Event.Link(c)))
  {
    var init := Init(CALC, Props(s.total));
    EventuallyAppends(s.sinks[c], s.toClient[c], [init]);
    var r := Eventually(s.sinks[c], s.toClient[c]);
    CollectedPropertiesReplicate(s.total, r);
    assert Eventually(r, [init]) == Eventually(Received(r, init), [init][1..]);
  }

  /** Main result: what the source is told to do locally is what the same call does from remote. */
  lemma LocalActsAreTheMethods(total: int, objectId: string, conn: nat, requestId: nat, value: int, args: Json)
    requires Names.SlashFree(objectId) && value == ToInt(value)
    ensures var id := Names.CreateMemberId(objectId, "add");
            Act(total, LocalAdd(value)) == Act(total, Event.Invoke(conn, requestId, id, Array([Int(value)])))
    ensures var id := Names.CreateMemberId(objectId, "sub");
            Act(total, LocalSub(value)) == Act(total, Event.Invoke(conn, requestId, id, Array([Int(value)])))
    ensures var id := Names.CreateMemberId(objectId, "clear");
            Act(total, LocalClear) == Act(total, Event.Invoke(conn, requestId, id, args))
  {
    MethodNames(objectId);
    SignedReadsBack(value);
    assert FirstArg(Array([Int(value)])) == Some(value);
  }

  /** The caller of a method gets its notes, if it is the one that is notified, and then the reply with
      its own request id, method and result. */
  lemma RepliesComeAfterNotes(s: State, c: nat, requestId: nat, id: string, args: Json)
    requires Inv(s) && Enabled(s, Event.Invoke(c, requestId, id, args))
    requires Act(s.total, Event.Invoke(c, requestId, id, args)).Done?
    ensures var e := Event.Invoke(c, requestId, id, args);
            var o := Act(s.total, e);
            && |Next(s, e).toClient| == |s.toClient|
            && (Next(s, e).running ==>
                  Next(s, e).toClient[c] ==
                  s.toClient[c] + (if Reached(s) == Some(c) then o.notes else [])
                  + [InvokeReply(requestId, id, o.result)])
  {
  }

  /** What the source does in an event replicates. */
  lemma ActReplicates(s: State, e: Event)
    requires Inv(s) && Enabled(s, e)
    ensures Replicates(s.total, Act(s.total, e))
  {
    match e
    case SetProperty(_, id, value) => SetReplicates(s.total, id, value);
    case Invoke(_, _, id, args) => InvokeReplicates(s.total, id, args);
    case LocalAdd(value) => AddReplicates(s.total, value);
    case LocalSub(value) => SubReplicates(s.total, value);
    case LocalClear => ClearReplicates(s.total);
    case _ =>
  }

  lemma StepKeeps(s: State, e: Event)
    requires Inv(s) && Enabled(s, e)
    ensures Inv(Next(s, e))
  {
    match e
    case Link(c) => LinkKeeps(s, c);
    case Unlink(_) =>
    case Deliver(c) =>
    case Release(c) => ReleaseDoesNotMatter(s.sinks[c], s.toClient[c]);
    case Close(_) =>
    case Invoke(c, requestId, id, _) =>
      var o := Act(s.total, e);
      ActReplicates(s, e);
      ActsKeep(s, o);
      if o.Done? { ReplyKeeps(Acts(s, o), c, InvokeReply(requestId, id, o.result)); }
    case _ =>
      ActReplicates(s, e);
      ActsKeep(s, Act(s.total, e));
  }

  // ----- Runs -----

  /** Nobody linked yet, empty queues; the sinks may hold any totals. */
  ghost predicate Initial(s: State) {
    && s.total == 1 && s.node == None && s.last == None && s.closed == {} && s.running
    && |s.sinks| == |s.toClient| && forall c | 0 <= c < |s.toClient| :: s.toClient[c] == []
  }

  ghost predicate IsStep(s: State, e: Event, s': State) {
    Enabled(s, e) && s' == Next(s, e)
  }

  ghost predicate IsRun(states: seq<State>, events: seq<Event>) {
    && |states| == |events| + 1 && Initial(states[0])
    && forall i | 0 <= i < |events| :: IsStep(states[i], events[i], states[i + 1])
  }

  lemma {:induction false} RunKeepsInv(states: seq<State>, events: seq<Event>, n: nat)
    requires IsRun(states, events) && n <= |events|
    ensures Inv(states[n])
  {
    if n > 0 {
      RunKeepsInv(states, events, n - 1);
      assert IsStep(states[n - 1], events[n - 1], states[n - 1 + 1]);
      StepKeeps(states[n - 1], events[n - 1]);
    }
  }

  /** Main result: in every run, applying the queued messages of the connection that linked last to
      its sink always yields the source's total, from any starting value; it stays so when that
      connection unlinks or closes. */
  lemma ReplicaConverges(states: seq<State>, events: seq<Event>, n: nat)
    requires IsRun(states, events) && n <= |events| && states[n].running && states[n].last.Some?
    ensures var s := states[n]; var c := s.last.value;
            && c < |s.sinks| == |s.toClient|
            && EventualTotal(s, c) == s.total
            && (s.toClient[c] == [] ==> s.sinks[c].total == s.total)
  {
    RunKeepsInv(states, events, n);
  }

  lemma ActsFreeze(s: State, o: Outcome, c: nat)
    requires Inv(s) && s.running && Replicates(s.total, o) && c < |s.sinks| && Reached(s) != Some(c)
    ensures c < |Acts(s, o).sinks| == |Acts(s, o).toClient|
    ensures EventualTotal(Acts(s, o), c) == EventualTotal(s, c)
  {
    ActsKeep(s, o);
  }

  /** Why one connection: a step keeps what a replica is heading for, if the source cannot notify
      its connection, or stops notifying it as another connection links. */
  lemma OtherReplicasAreFrozen(s: State, e: Event, c: nat)
    requires Inv(s) && Enabled(s, e) && c < |s.sinks| && (Reached(s) == Some(c) ==> e.Link?) && e != Event.Link(c)
    ensures c < |Next(s, e).sinks| == |Next(s, e).toClient|
    ensures Next(s, e).running ==> EventualTotal(Next(s, e), c) == EventualTotal(s, c)
  {
    match e
    case Link(k) =>
    case Unlink(_) =>
    case Deliver(k) =>
    case Release(k) => ReleaseDoesNotMatter(s.sinks[k], s.toClient[k]);
    case Close(_) =>
    case Invoke(k, requestId, id, args) =>
      var o := Act(s.total, e);
      ActReplicates(s, e);
      ActsFreeze(s, o, c);
      ActsKeep(s, o);
      if o.Done? { ReplyDoesNotMatter(Acts(s, o), k, InvokeReply(requestId, id, o.result), c); }
    case _ =>
      ActReplicates(s, e);
      ActsFreeze(s, Act(s.total, e), c);
  }

  // ----- From the history alone -----

  /** The connection that linked last. */
  function LastLinked(events: seq<Event>): Option<nat> {
    if events == [] then None
    else
      var before, e := events[..|events| - 1], events[|events| - 1];
      if e.Link? then Some(e.conn) else LastLinked(before)
  }

  /** The connection that linked last, unless some connection unlinked since. */
  function Remembered(events: seq<Event>): Option<nat> {
    if events == [] then None
    else
      var before, e := events[..|events| - 1], events[|events| - 1];
      if e.Link? then Some(e.conn) else if e.Unlink? then None else Remembered(before)
  }

  /** The same, unless that connection was closed since. */
  function Notified(events: seq<Event>): Option<nat> {
    if events == [] then None
    else
      var before, e := events[..|events| - 1], events[|events| - 1];
      if e.Link? then Some(e.conn)
      else if e.Unlink? || (e.Close? && Notified(before) == Some(e.conn)) then None
      else Notified(before)
  }

  /** The latest moment up to `n` at which the connection was the one that linked last. */
  function LastLed(events: seq<Event>, n: nat, c: nat): (k: Option<nat>)
    requires n <= |events|
    ensures k.Some? ==> k.value <= n && LastLinked(events[..k.value]) == Some(c)
  {
    if LastLinked(events[..n]) == Some(c) then Some(n) else if n == 0 then None else LastLed(events, n - 1, c)
  }

  /** The total a replica is heading for: the source's while its connection is the one that linked
      last, from then on the total at which another connection took over, and its own total if it
      never linked. */
  function HeadedFor(states: seq<State>, events: seq<Event>, n: nat, c: nat): int
    requires |states| == |events| + 1 && n <= |events| && c < |states[0].sinks|
  {
    var k := LastLed(events, n, c);
    if k.Some? then states[k.value].total else states[0].sinks[c].total
  }

  lemma OnlyLinksAndUnlinksSwitch(s: State, e: Event)
    requires Enabled(s, e)
    ensures Next(s, e).last == if e.Link? then Some(e.conn) else s.last
    ensures Next(s, e).node == if e.Link? then Some(e.conn) else if e.Unlink? then None else s.node
    ensures Next(s, e).closed == if e.Close? then s.closed + {e.conn} else s.closed
    ensures e.Link? ==> e.conn !in s.closed
    ensures |Next(s, e).sinks| == |s.sinks|
  {
    ActsSwitchNothing(s, Act(s.total, e));
    match e
    case Link(_) =>
    case Unlink(_) =>
    case Deliver(_) =>
    case Release(_) =>
    case Close(_) =>
    case _ =>
  }

  lemma ActsSwitchNothing(s: State, o: Outcome)
    ensures Acts(s, o).last == s.last && Acts(s, o).node == s.node && Acts(s, o).sinks == s.sinks
    ensures Acts(s, o).closed == s.closed
  {
  }

  /** In every run the node the source remembers is the connection that linked last, or none if any
      connection unlinked since; the one it can notify is that one unless it was closed since. */
  lemma {:induction false} RunKeepsHistory(states: seq<State>, events: seq<Event>, n: nat)
    requires IsRun(states, events) && n <= |events|
    ensures states[n].last == LastLinked(events[..n]) && states[n].node == Remembered(events[..n])
    ensures Reached(states[n]) == Notified(events[..n])
    ensures |states[n].sinks| == |states[0].sinks|
  {
    if n > 0 {
      RunKeepsHistory(states, events, n - 1);
      assert IsStep(states[n - 1], events[n - 1], states[n - 1 + 1]);
      OnlyLinksAndUnlinksSwitch(states[n - 1], events[n - 1]);
      assert events[..n][..n - 1] == events[..n - 1] && events[..n][n - 1] == events[n - 1];
    }
  }

  /** Main result: in every run, every replica ends, once its queue is delivered, exactly at the total
      the history says; so it converges to the source iff that is the source's total. */
  lemma {:induction false} EveryReplicaEndsWhereTheHistorySays(states: seq<State>, events: seq<Event>, n: nat, c: nat)
    requires IsRun(states, events) && n <= |events| && states[n].running && c < |states[0].sinks|
    ensures c < |states[n].sinks| == |states[n].toClient|
    ensures EventualTotal(states[n], c) == HeadedFor(states, events, n, c)
    ensures states[n].toClient[c] == [] ==> states[n].sinks[c].total == HeadedFor(states, events, n, c)
    ensures EventualTotal(states[n], c) == states[n].total <==> HeadedFor(states, events, n, c) == states[n].total
  {
    RunKeepsInv(states, events, n);
    RunKeepsHistory(states, events, n);
    if LastLinked(events[..n]) != Some(c) && n > 0 {
      var s, e := states[n - 1], events[n - 1];
      assert IsStep(s, e, states[n - 1 + 1]);
      RunKeepsInv(states, events, n - 1);
      RunKeepsHistory(states, events, n - 1);
      assert events[..n][..n - 1] == events[..n - 1] && events[..n][n - 1] == e;
      EveryReplicaEndsWhereTheHistorySays(states, events, n - 1, c);
      OtherReplicasAreFrozen(s, e, c);
    }
  }

  /** Main result: once a connection is closed, its replica ends at what it was heading for at that
      moment, whoever links and whatever the source does afterwards. */
  lemma {:induction false} ClosedReplicaKeepsItsTarget(states: seq<State>, events: seq<Event>, m: nat, n: nat, c: nat)
    requires IsRun(states, events) && m <= n <= |events| && states[n].running
    requires c < |states[0].sinks| && c in states[m].closed
    ensures states[m].running && c in states[n].closed && c < |states[n].sinks| == |states[n].toClient|
    ensures EventualTotal(states[n], c) == HeadedFor(states, events, m, c)
  {
    RunKeepsHistory(states, events, n);
    RunKeepsInv(states, events, n);
    if n == m {
      EveryReplicaEndsWhereTheHistorySays(states, events, m, c);
    } else {
      assert IsStep(states[n - 1], events[n - 1], states[n - 1 + 1]);
      ClosedReplicaKeepsItsTarget(states, events, m, n - 1, c);
      RunKeepsInv(states, events, n - 1);
      OnlyLinksAndUnlinksSwitch(states[n - 1], events[n - 1]);
      OtherReplicasAreFrozen(states[n - 1], events[n - 1], c);
    }
  }

  /** Main result: the source stops exactly when it has something to notify, and no connection linked
      since the last unlink of any, or the one that did was closed. */
  lemma SourceStopsExactlyWithoutNode(states: seq<State>, events: seq<Event>, n: nat)
    requires IsRun(states, events) && n < |events|
    ensures states[n].running
    ensures !states[n + 1].running <==> Notifies(Act(states[n].total, events[n])) && Notified(events[..n]).None?
  {
    RunKeepsHistory(states, events, n);
    assert IsStep(states[n], events[n], states[n + 1]);
    StopsExactlyUnreached(states[n], events[n]);
  }

  lemma StopsExactlyUnreached(s: State, e: Event)
    requires Enabled(s, e)
    ensures !Next(s, e).running <==> Notifies(Act(s.total, e)) && Reached(s).None?
  {
  }

  /** So an unlink of one connection stops the source for another that is still linked. */
  lemma UnlinkOfOneStopsTheSourceForAll() returns (states: seq<State>, events: seq<Event>)
    ensures IsRun(states, events) && !states[|events|].running
    ensures Event.Link(0) in events && Event.Unlink(0) !in events
  {
    var s0 := State(1, None, None, {}, [Replica(7, false), Replica(8, false)], [[], []], true);
    events := [Event.Link(0), Event.Link(1), Event.Unlink(1), LocalAdd(5)];
    var s1 := Next(s0, events[0]);
    var s2 := Next(s1, events[1]);
    var s3 := Next(s2, events[2]);
    var s4 := Next(s3, events[3]);
    states := [s0, s1, s2, s3, s4];
    assert IsStep(s0, events[0], s1) && IsStep(s1, events[1], s2);
    assert IsStep(s2, events[2], s3) && IsStep(s3, events[3], s4);
  }

  /** And the destruction of a remote node stops the source that goes on remembering it. */
  lemma CloseStopsTheSource() returns (states: seq<State>, events: seq<Event>)
    ensures IsRun(states, events) && !states[|events|].running
    ensures Remembered(events) == Some(0) && forall c :: Event.Unlink(c) !in events
  {
    var s0 := State(1, None, None, {}, [Replica(7, false)], [[]], true);
    events := [Event.Link(0), Close(0), LocalAdd(5)];
    var s1 := Next(s0, events[0]);
    var s2 := Next(s1, events[1]);
    var s3 := Next(s2, events[2]);
    states := [s0, s1, s2, s3];
    assert IsStep(s0, events[0], s1) && IsStep(s1, events[1], s2) && IsStep(s2, events[2], s3);
    assert states[3].node == Some(0);
    RunKeepsHistory(states, events, 3);
    assert events[..3] == events;
  }

  /** So two linked replicas do not both converge: here the first one stays at 1. */
  lemma SupersededReplicaDiverges() returns (states: seq<State>, events: seq<Event>)
    ensures IsRun(states, events) && states[|events|].running
    ensures Event.Link(0) in events && Event.Unlink(0) !in events
    ensures |states[|events|].sinks| == |states[|events|].toClient| == 2
    ensures EventualTotal(states[|events|], 0) == 1 && states[|events|].total == 6
  {
    var s0 := State(1, None, None, {}, [Replica(7, false), Replica(8, false)], [[], []], true);
    events := [Event.Link(0), Event.Link(1), LocalAdd(5)];
    var s1 := Next(s0, events[0]);
    var s2 := Next(s1, events[1]);
    var s3 := Next(s2, events[2]);
    states := [s0, s1, s2, s3];
    assert IsRun(states, events) by {
      assert IsStep(s0, events[0], s1) && IsStep(s1, events[1], s2) && IsStep(s2, events[2], s3);
    }
    assert events[..3] == events && events[..2] == [Event.Link(0), Event.Link(1)] && events[..1] == [Event.Link(0)];
    EveryReplicaEndsWhereTheHistorySays(states, events, 3, 0);
  }
}
