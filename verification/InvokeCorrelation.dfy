/** Remote invocations over one connection: does every reply reach its own call? */
module InvokeCorrelation {
  import opened Types
  import opened Protocol
  import opened Invocations
  import opened RemoteNodes

  /** One call of `invokeRemote`. Calls are numbered 1, 2, ... without bound. */
  datatype Issued = Issued(methodId: string, args: Json, isNull: bool)

  /** What a source did for a call: the method and arguments it got, and what it returned. */
  datatype Execution = Execution(methodId: string, args: Json, value: Json)

  /** A message under way, with the number of the call it belongs to. The nodes cannot see the
      number: they act on the message alone. Errors of the peer belong to no call. */
  datatype Tagged = Tagged(call: nat, msg: Call) | Stray(msg: Call)

  /** One execution of a callback, and whether a reply caused it. */
  datatype Ran = Ran(run: CallbackRun, byReply: bool)

  /** Why no answer will come: no write function at the client, no source, none at the server. */
  datatype Loss = NotSent | NoSource | NotAnswered

  /** One connection. `clientWrites` and `serverWrites` say whether the two nodes have a write
      function; `overwritten` counts the calls whose callback was replaced by a later call's. */
  datatype Net = Net(
    issued: seq<Issued>,
    pending: Pending,
    clientWrites: bool,
    serverWrites: bool,
    toServer: seq<Tagged>,
    toClient: seq<Tagged>,
    lost: map<nat, Loss>,
    executed: map<nat, Execution>,
    ran: seq<Ran>,
    replied: nat,
    failed: nat,
    overwritten: nat)

  datatype Event =
    | ClientWriter(on: bool)
    | ServerWriter(on: bool)
    | InvokeRemote(methodId: string, args: Json, isNull: bool)
    | Serve(value: Json)
    | Drop
    | PeerError(msgType: int, signedId: int, text: string)
    | Receive

  predicate Enabled(s: Net, e: Event) {
    match e
    case ClientWriter(_) => true
    case ServerWriter(_) => true
    case InvokeRemote(_, _, _) => true
    case Serve(_) => s.toServer != [] && s.toServer[0].Tagged? && s.toServer[0].msg.Invoke?
    case Drop => s.toServer != [] && s.toServer[0].Tagged? && s.toServer[0].msg.Invoke?
    case PeerError(_, _, _) => true
    case Receive => s.toClient != []
  }

  /** The id an answer is about, when it can end a pending call. */
  function AnsweredId(c: Call): Option<nat> {
    if c.InvokeReply? then Some(c.requestId)
    else if c.Error? && EndsInvoke(c.msgType) then Some(ToUint(c.signedId))
    else None
  }

  /** The pending call an answer ends, if any. */
  function Hit(p: Pending, c: Call): Option<nat> {
    if AnsweredId(c).Some? && AnsweredId(c).value in p.waiting then AnsweredId(c) else None
  }

  function Marked(runs: seq<CallbackRun>, byReply: bool): (ran: seq<Ran>)
    ensures |ran| == |runs|
  {
    seq(|runs|, i requires 0 <= i < |runs| => Ran(runs[i], byReply))
  }

  function Next(s: Net, e: Event): Net
    requires Enabled(s, e)
  {
    match e
    case ClientWriter(on) => s.(clientWrites := on)
    case ServerWriter(on) => s.(serverWrites := on)
    case InvokeRemote(methodId, args, isNull) =>
      var k := |s.issued| + 1;
      var (pending, id) := Issue(s.pending, Callback(k, isNull));
      var called := s.(issued := s.issued + [Issued(methodId, args, isNull)],
                       pending := pending,
                       overwritten := s.overwritten + if id in s.pending.waiting then 1 else 0);
      if s.clientWrites
      then called.(toServer := s.toServer + [Tagged(k, Invoke(id, methodId, args))])
      else called.(lost := s.lost[k := NotSent])
    case Serve(value) =>
      var Tagged(k, msg) := s.toServer[0];
      var answer := Responses(msg, Reaction([], value))[0];
      var served := s.(toServer := s.toServer[1..],
                       executed := s.executed[k := Execution(msg.memberId, msg.args, value)]);
      if s.serverWrites
      then served.(toClient := s.toClient + [Tagged(k, answer)])
      else served.(lost := s.lost[k := NotAnswered])
    case Drop =>
      s.(toServer := s.toServer[1..], lost := s.lost[s.toServer[0].call := NoSource])
    case PeerError(msgType, signedId, text) =>
      s.(toClient := s.toClient + [Stray(Error(msgType, signedId, text))])
    case Receive =>
      var msg := s.toClient[0].msg;
      var (pending, runs) := Answer(s.pending, msg);
      var hit := Hit(s.pending, msg).Some?;
      s.(toClient := s.toClient[1..],
         pending := pending,
         ran := s.ran + Marked(runs, msg.InvokeReply?),
         replied := s.replied + if hit && msg.InvokeReply? then 1 else 0,
         failed := s.failed + if hit && !msg.InvokeReply? then 1 else 0)
  }

  const START := Net([], Pending(0, map[]), false, false, [], [], map[], map[], [], 0, 0, 0)

  // ----- The window of live call numbers -----

  predicate Made(s: Net, k: nat) {
    1 <= k <= |s.issued|
  }

  /** The calls whose callback waits in the table. */
  ghost function WaitingCalls(s: Net): set<nat> {
    Tags(s.pending.waiting)
  }

  ghost function Tags(w: map<nat, Callback>): set<nat> {
    set id | id in w :: w[id].tag
  }

  ghost predicate Waits(s: Net, k: nat) {
    k in WaitingCalls(s)
  }

  ghost predicate InQueue(queue: seq<Tagged>, k: nat) {
    exists i :: 0 <= i < |queue| && queue[i].Tagged? && queue[i].call == k
  }

  /** The call still matters: its callback waits, or a message of it is under way. */
  ghost predicate Tracked(s: Net, k: nat) {
    Waits(s, k) || InQueue(s.toServer, k) || InQueue(s.toClient, k)
  }

  /** A further call may be made: fewer than 2^32 calls will have followed any tracked one. */
  ghost predicate RoomForCall(s: Net) {
    forall k | Tracked(s, k) :: |s.issued| + 1 - k < UINT_RANGE
  }

  /** Fewer than 2^32 calls have followed any tracked one. */
  ghost predicate InWindow(s: Net) {
    forall k | Tracked(s, k) :: |s.issued| - k < UINT_RANGE
  }

  lemma SameIdSameCall(j: nat, k: nat)
    requires ToUint(j) == ToUint(k) && j - k < UINT_RANGE && k - j < UINT_RANGE
    ensures j == k
  {
  }

  lemma IdsRepeat(k: nat)
    ensures ToUint(k + UINT_RANGE) == ToUint(k)
  {
  }

  // ----- The invariant -----

  /** The table holds calls of the window, each under its own id; `ended` calls have left it. */
  ghost predicate TableOk(issued: seq<Issued>, p: Pending, ended: nat) {
    && p.lastId == ToUint(|issued|)
    && (forall id | id in p.waiting :: EntryOk(issued, id, p.waiting[id]))
    && |issued| == |p.waiting| + ended
  }

  ghost predicate EntryOk(issued: seq<Issued>, id: nat, callback: Callback) {
    && 1 <= callback.tag <= |issued| && |issued| - callback.tag < UINT_RANGE
    && id == ToUint(callback.tag)
    && callback.isNull == issued[callback.tag - 1].isNull
  }

  ghost predicate PendingOk(s: Net) {
    TableOk(s.issued, s.pending, s.replied + s.failed + s.overwritten)
  }

  ghost predicate RequestOk(s: Net, m: Tagged) {
    && m.Tagged? && Made(s, m.call) && m.call !in s.executed && m.call !in s.lost
    && m.msg == Invoke(ToUint(m.call), s.issued[m.call - 1].methodId, s.issued[m.call - 1].args)
  }

  ghost predicate AnswerOk(s: Net, m: Tagged) {
    match m
    case Stray(msg) => msg.Error?
    case Tagged(k, msg) =>
      && Made(s, k) && k in s.executed && k !in s.lost
      && msg == InvokeReply(ToUint(k), s.issued[k - 1].methodId, s.executed[k].value)
  }

  ghost predicate DistinctCalls(queue: seq<Tagged>) {
    forall i, j | 0 <= i < j < |queue| && queue[i].Tagged? && queue[j].Tagged? :: queue[i].call != queue[j].call
  }

  /** Where the request of a waiting call can be. */
  ghost predicate Placed(s: Net, k: nat) {
    InQueue(s.toServer, k) || InQueue(s.toClient, k) || k in s.lost
  }

  ghost predicate QueuesOk(s: Net) {
    && (forall i | 0 <= i < |s.toServer| :: RequestOk(s, s.toServer[i]))
    && (forall i | 0 <= i < |s.toClient| :: AnswerOk(s, s.toClient[i]))
    && DistinctCalls(s.toServer) && DistinctCalls(s.toClient)
    && (forall k | k in s.executed :: 1 <= k <= |s.issued| &&
          s.executed[k].methodId == s.issued[k - 1].methodId && s.executed[k].args == s.issued[k - 1].args)
    && (forall k | k in s.lost :: 1 <= k <= |s.issued| && (s.lost[k] == NotAnswered <==> k in s.executed))
    && (forall k | Waits(s, k) :: Placed(s, k))
  }

  /** A run of a callback belongs to a call that no longer waits; an error carries no value. */
  ghost predicate RunOk(s: Net, r: Ran) {
    && Made(s, r.run.tag) && !Waits(s, r.run.tag)
    && (!r.byReply ==> r.run.arg == ReplyArg("", Null))
  }

  ghost predicate RunsOk(s: Net) {
    && (forall i | 0 <= i < |s.ran| :: RunOk(s, s.ran[i]))
    && (forall i, j | 0 <= i < j < |s.ran| :: s.ran[i].run.tag != s.ran[j].run.tag)
  }

  /** What holds in every run. */
  ghost predicate Inv(s: Net) {
    PendingOk(s) && QueuesOk(s) && RunsOk(s)
  }

  /** A run caused by a reply carries what the source returned for that very call. */
  ghost predicate CarriesItsOwn(s: Net, r: Ran) {
    r.byReply ==>
      && Made(s, r.run.tag) && r.run.tag in s.executed
      && r.run.arg == ReplyArg(s.issued[r.run.tag - 1].methodId, s.executed[r.run.tag].value)
  }

  /** What holds besides as long as the run stays in the window. */
  ghost predicate WindowInv(s: Net) {
    InWindow(s) && forall i | 0 <= i < |s.ran| :: CarriesItsOwn(s, s.ran[i])
  }

  // ----- Each step keeps it -----

  /** With room for a call, the new id is not in use: no waiting callback is overwritten. */
  lemma NextIdIsFree(s: Net)
    requires PendingOk(s) && RoomForCall(s)
    ensures NextRequestId(s.pending.lastId) == ToUint(|s.issued| + 1)
    ensures NextRequestId(s.pending.lastId) !in s.pending.waiting
  {
    LastIdIsNext(s);
    var id := NextRequestId(s.pending.lastId);
    if id in s.pending.waiting {
      var k := s.pending.waiting[id].tag;
      assert Waits(s, k) && Tracked(s, k);
      SameIdSameCall(k, |s.issued| + 1);
    }
  }

  lemma SettingOneTag(w: map<nat, Callback>, id: nat, callback: Callback)
    ensures Tags(w[id := callback]) <= Tags(w) + {callback.tag}
  {
  }

  lemma RemovingOneTag(w: map<nat, Callback>, id: nat)
    requires id in w && forall i | i in w :: i == ToUint(w[i].tag)
    ensures Tags(w - {id}) == Tags(w) - {w[id].tag}
  {
    var w' := w - {id};
    forall k | k in Tags(w) && k != w[id].tag ensures k in Tags(w') {
      var i :| i in w && w[i].tag == k;
      assert i in w' && w'[i] == w[i];
    }
  }

  lemma InvokeAddsAtMostOne(s: Net, e: Event)
    requires PendingOk(s) && e.InvokeRemote?
    ensures WaitingCalls(Next(s, e)) <= WaitingCalls(s) + {|s.issued| + 1}
  {
    SettingOneTag(s.pending.waiting, NextRequestId(s.pending.lastId), Callback(|s.issued| + 1, e.isNull));
  }

  /** What may be overwritten is the one entry that leaves the window. */
  lemma IssueKeepsTable(issued: seq<Issued>, p: Pending, ended: nat, call: Issued)
    requires TableOk(issued, p, ended)
    ensures var (p', id) := Issue(p, Callback(|issued| + 1, call.isNull));
            TableOk(issued + [call], p', ended + if id in p.waiting then 1 else 0)
  {
    var callback := Callback(|issued| + 1, call.isNull);
    var (p', id) := Issue(p, callback);
    NewEntryIsOk(issued, call);
    SettingOneEntry(p.waiting, id, callback);
    forall i | i in p'.waiting ensures EntryOk(issued + [call], i, p'.waiting[i]) {
      if i != id { EntryStaysInWindow(issued, i, p.waiting[i], call); }
    }
  }

  lemma NewEntryIsOk(issued: seq<Issued>, call: Issued)
    ensures NextRequestId(ToUint(|issued|)) == ToUint(|issued + [call]|)
    ensures EntryOk(issued + [call], ToUint(|issued + [call]|), Callback(|issued| + 1, call.isNull))
  {
    UintSuccessor(|issued|);
  }

  lemma SettingOneEntry(w: map<nat, Callback>, id: nat, callback: Callback)
    ensures |w[id := callback]| == |w| + if id in w then 0 else 1
  {
    assert w[id := callback].Keys == w.Keys + {id};
  }

  lemma EntryStaysInWindow(issued: seq<Issued>, id: nat, callback: Callback, call: Issued)
    requires EntryOk(issued, id, callback) && id != ToUint(|issued + [call]|)
    ensures EntryOk(issued + [call], id, callback)
  {
    if |issued| + 1 == callback.tag + UINT_RANGE { IdsRepeat(callback.tag); }
  }

  lemma ResolveKeepsTable(issued: seq<Issued>, p: Pending, ended: nat, id: nat)
    requires TableOk(issued, p, ended) && id in p.waiting
    ensures TableOk(issued, Resolve(p, id), ended + 1)
  {
    RemovingOneEntry(p.waiting, id);
  }

  lemma InvokeKeepsPending(s: Net, e: Event)
    requires PendingOk(s) && e.InvokeRemote?
    ensures PendingOk(Next(s, e))
  {
    IssueKeepsTable(s.issued, s.pending, s.replied + s.failed + s.overwritten, Issued(e.methodId, e.args, e.isNull));
  }

  lemma InvokeKeepsRequests(s: Net, e: Event, i: nat)
    requires Inv(s) && e.InvokeRemote? && i < |Next(s, e).toServer|
    ensures RequestOk(Next(s, e), Next(s, e).toServer[i])
    ensures i < |s.toServer| ==> Next(s, e).toServer[i] == s.toServer[i] && s.toServer[i].call <= |s.issued|
    ensures i == |s.toServer| ==> Next(s, e).toServer[i].call == |s.issued| + 1
  {
    LastIdIsNext(s);
    assert i < |s.toServer| ==> RequestOk(s, s.toServer[i]);
  }

  lemma InvokeKeepsPlaces(s: Net, e: Event, k: nat)
    requires PendingOk(s) && e.InvokeRemote?
    requires Waits(s, k) ==> Placed(s, k)
    ensures Waits(Next(s, e), k) ==> Placed(Next(s, e), k)
  {
    InvokeAddsAtMostOne(s, e);
    if s.clientWrites { PushAddsOne(s.toServer, Next(s, e).toServer[|s.toServer|]); }
  }

  lemma InvokeKeepsQueues(s: Net, e: Event)
    requires Inv(s) && e.InvokeRemote?
    ensures QueuesOk(Next(s, e))
  {
    var s' := Next(s, e);
    forall i: nat | i < |s'.toServer|
      ensures RequestOk(s', s'.toServer[i])
      ensures i < |s.toServer| ==> s'.toServer[i] == s.toServer[i] && s.toServer[i].call <= |s.issued|
      ensures i == |s.toServer| ==> s'.toServer[i].call == |s.issued| + 1
    {
      InvokeKeepsRequests(s, e, i);
    }
    forall i: nat | i < |s.toClient| ensures AnswerOk(s', s.toClient[i]) {
      assert AnswerOk(s, s.toClient[i]);
    }
    forall k | Waits(s', k) ensures Placed(s', k) {
      InvokeKeepsPlaces(s, e, k);
    }
  }

  lemma InvokeKeepsRuns(s: Net, e: Event)
    requires Inv(s) && e.InvokeRemote?
    ensures RunsOk(Next(s, e))
  {
    InvokeAddsAtMostOne(s, e);
    forall i | 0 <= i < |s.ran| ensures RunOk(Next(s, e), s.ran[i]) {
      assert RunOk(s, s.ran[i]);
    }
  }

  /** Taking the head off a queue of distinct calls removes that call and no other. */
  lemma PopRemovesOne(queue: seq<Tagged>)
    requires queue != [] && DistinctCalls(queue)
    ensures DistinctCalls(queue[1..])
    ensures forall k :: InQueue(queue, k) <==>
              InQueue(queue[1..], k) || (queue[0].Tagged? && queue[0].call == k)
    ensures queue[0].Tagged? ==> !InQueue(queue[1..], queue[0].call)
  {
  }

  lemma PushAddsOne(queue: seq<Tagged>, m: Tagged)
    ensures forall k :: InQueue(queue + [m], k) <==> InQueue(queue, k) || (m.Tagged? && m.call == k)
    ensures DistinctCalls(queue) && (m.Tagged? ==> !InQueue(queue, m.call)) ==> DistinctCalls(queue + [m])
  {
    var all := queue + [m];
    forall k ensures InQueue(all, k) <==> InQueue(queue, k) || (m.Tagged? && m.call == k) {
      if InQueue(queue, k) {
        var i :| 0 <= i < |queue| && queue[i].Tagged? && queue[i].call == k;
        assert all[i] == queue[i];
      }
      if m.Tagged? && m.call == k { assert all[|queue|] == m; }
    }
  }

  /** The request moves on, or is lost. */
  lemma ServeKeepsPlaces(s: Net, e: Event, k: nat)
    requires e.Serve? && Enabled(s, e) && DistinctCalls(s.toServer)
    requires Waits(s, k) ==> Placed(s, k)
    ensures Waits(Next(s, e), k) ==> Placed(Next(s, e), k)
  {
    PopRemovesOne(s.toServer);
    if s.serverWrites { PushAddsOne(s.toClient, Next(s, e).toClient[|s.toClient|]); }
  }

  lemma ServeKeepsQueues(s: Net, e: Event)
    requires QueuesOk(s) && e.Serve? && Enabled(s, e)
    ensures QueuesOk(Next(s, e))
  {
    var s' := Next(s, e);
    var m := s.toServer[0];
    assert RequestOk(s, m);
    PopRemovesOne(s.toServer);
    forall i | 0 <= i < |s.toClient| ensures s.toClient[i].Tagged? ==> s.toClient[i].call != m.call {
      assert AnswerOk(s, s.toClient[i]);
    }
    if s.serverWrites {
      var answer := s'.toClient[|s.toClient|];
      PushAddsOne(s.toClient, answer);
      assert AnswerOk(s', answer);
    }
    forall i | 0 <= i < |s'.toServer| ensures RequestOk(s', s'.toServer[i]) {
      assert s'.toServer[i] == s.toServer[i + 1] && RequestOk(s, s.toServer[i + 1]);
      assert InQueue(s.toServer[1..], s.toServer[i + 1].call);
    }
    forall i | 0 <= i < |s.toClient| ensures AnswerOk(s', s'.toClient[i]) {
      assert s'.toClient[i] == s.toClient[i] && AnswerOk(s, s.toClient[i]);
    }
    forall k | Waits(s', k) ensures Placed(s', k) {
      ServeKeepsPlaces(s, e, k);
    }
  }

  lemma ServeKeepsRuns(s: Net, e: Event)
    requires QueuesOk(s) && RunsOk(s) && e.Serve? && Enabled(s, e)
    ensures RunsOk(Next(s, e))
  {
  }

  lemma DropKeeps(s: Net)
    requires Inv(s) && Enabled(s, Drop)
    ensures Inv(Next(s, Drop))
  {
    var s' := Next(s, Drop);
    var m := s.toServer[0];
    assert RequestOk(s, m);
    PopRemovesOne(s.toServer);
    assert forall k :: Waits(s', k) == Waits(s, k);
    forall i | 0 <= i < |s'.toServer| ensures RequestOk(s', s'.toServer[i]) {
      assert s'.toServer[i] == s.toServer[i + 1] && RequestOk(s, s.toServer[i + 1]);
      assert InQueue(s.toServer[1..], s.toServer[i + 1].call);
    }
    forall i | 0 <= i < |s'.toClient| ensures AnswerOk(s', s'.toClient[i]) {
      assert AnswerOk(s, s.toClient[i]);
    }
    forall i | 0 <= i < |s.ran| ensures RunOk(s', s.ran[i]) {
      assert RunOk(s, s.ran[i]);
    }
  }

  lemma PeerErrorKeeps(s: Net, e: Event)
    requires Inv(s) && e.PeerError?
    ensures Inv(Next(s, e))
  {
    var s' := Next(s, e);
    PushAddsOne(s.toClient, s'.toClient[|s.toClient|]);
    assert forall k :: Waits(s', k) == Waits(s, k);
    forall i | 0 <= i < |s'.toServer| ensures RequestOk(s', s'.toServer[i]) {
      assert RequestOk(s, s.toServer[i]);
    }
    forall i | 0 <= i < |s'.toClient| ensures AnswerOk(s', s'.toClient[i]) {
      if i < |s.toClient| { assert AnswerOk(s, s.toClient[i]); }
    }
    forall i | 0 <= i < |s.ran| ensures RunOk(s', s.ran[i]) {
      assert RunOk(s, s.ran[i]);
    }
  }

  /** The waiting call a received message ends, if any: the one the message belongs to. */
  ghost function Ended(s: Net): set<nat>
    requires Enabled(s, Receive)
  {
    var hit := Hit(s.pending, s.toClient[0].msg);
    if hit.Some? then {s.pending.waiting[hit.value].tag} else {}
  }

  lemma ReceiveEndsAtMostOne(s: Net)
    requires PendingOk(s) && Enabled(s, Receive)
    ensures WaitingCalls(Next(s, Receive)) == WaitingCalls(s) - Ended(s)
  {
    var hit := Hit(s.pending, s.toClient[0].msg);
    AnswerResolvesHit(s.pending, s.toClient[0].msg);
    if hit.Some? { RemovingOneTag(s.pending.waiting, hit.value); }
  }

  /** A reply ends the waiting call under its id. That is its own call if that still waits, and can
      be another one only after 2^32 calls. */
  lemma ReceiveEndsItsCall(s: Net)
    requires PendingOk(s) && Enabled(s, Receive) && AnswerOk(s, s.toClient[0])
    ensures WaitingCalls(Next(s, Receive)) == WaitingCalls(s) - Ended(s)
    ensures s.toClient[0].Tagged? ==>
              forall j: nat :: j in Ended(s) <==> Waits(s, j) && ToUint(j) == ToUint(s.toClient[0].call)
    ensures s.toClient[0].Tagged? && Waits(s, s.toClient[0].call) ==> Ended(s) == {s.toClient[0].call}
    ensures s.toClient[0].Tagged? && |s.issued| - s.toClient[0].call < UINT_RANGE ==> Ended(s) <= {s.toClient[0].call}
  {
    ReceiveEndsAtMostOne(s);
    var m, w := s.toClient[0], s.pending.waiting;
    if m.Tagged? {
      var id := ToUint(m.call);
      assert AnsweredId(m.msg) == Some(id);
      forall j: nat | Waits(s, j) && ToUint(j) == id ensures id in w && w[id].tag == j {
        var i :| i in w && w[i].tag == j;
        assert i == id;
      }
      if id in w && |s.issued| - m.call < UINT_RANGE { SameIdSameCall(w[id].tag, m.call); }
    }
  }

  lemma ReceiveKeepsPending(s: Net)
    requires PendingOk(s) && Enabled(s, Receive)
    ensures PendingOk(Next(s, Receive))
  {
    var hit := Hit(s.pending, s.toClient[0].msg);
    AnswerResolvesHit(s.pending, s.toClient[0].msg);
    if hit.Some? { ResolveKeepsTable(s.issued, s.pending, s.replied + s.failed + s.overwritten, hit.value); }
  }

  lemma RemovingOneEntry(w: map<nat, Callback>, id: nat)
    requires id in w
    ensures |w - {id}| == |w| - 1
  {
  }

  lemma AnswerResolvesHit(p: Pending, c: Call)
    ensures Answer(p, c).0 == if Hit(p, c).Some? then Resolve(p, Hit(p, c).value) else p
    ensures Hit(p, c).None? ==> Answer(p, c).1 == []
  {
    if AnsweredId(c).Some? && AnsweredId(c).value !in p.waiting {
      assert p.waiting - {AnsweredId(c).value} == p.waiting;
    }
  }

  lemma ReceiveKeepsPlaces(s: Net, k: nat)
    requires PendingOk(s) && Enabled(s, Receive) && AnswerOk(s, s.toClient[0]) && DistinctCalls(s.toClient)
    requires Waits(s, k) ==> Placed(s, k)
    ensures Waits(Next(s, Receive), k) ==> Placed(Next(s, Receive), k)
  {
    ReceiveEndsItsCall(s);
    PopRemovesOne(s.toClient);
  }

  lemma ReceiveKeepsQueues(s: Net)
    requires PendingOk(s) && QueuesOk(s) && Enabled(s, Receive)
    ensures QueuesOk(Next(s, Receive))
  {
    var s' := Next(s, Receive);
    assert AnswerOk(s, s.toClient[0]);
    PopRemovesOne(s.toClient);
    forall k | Waits(s', k) ensures Placed(s', k) {
      ReceiveKeepsPlaces(s, k);
    }
    forall i | 0 <= i < |s'.toServer| ensures RequestOk(s', s'.toServer[i]) {
      assert RequestOk(s, s.toServer[i]);
    }
    forall i | 0 <= i < |s'.toClient| ensures AnswerOk(s', s'.toClient[i]) {
      assert s'.toClient[i] == s.toClient[i + 1] && AnswerOk(s, s.toClient[i + 1]);
    }
  }

  lemma ReceiveKeepsRuns(s: Net)
    requires PendingOk(s) && QueuesOk(s) && RunsOk(s) && Enabled(s, Receive)
    ensures RunsOk(Next(s, Receive))
  {
    var s' := Next(s, Receive);
    assert AnswerOk(s, s.toClient[0]);
    ReceiveEndsItsCall(s);
    var added := s'.ran[|s.ran|..];
    assert s'.ran == s.ran + added && |added| <= 1;
    forall i | 0 <= i < |s.ran| ensures RunOk(s', s.ran[i]) {
      assert RunOk(s, s.ran[i]);
    }
    if added != [] { NewRunIsOk(s); }
    forall i, j | 0 <= i < j < |s'.ran| ensures s'.ran[i].run.tag != s'.ran[j].run.tag {
      assert RunOk(s, s.ran[i]);
    }
    forall i | 0 <= i < |s'.ran| ensures RunOk(s', s'.ran[i]) {
      if i < |s.ran| { assert s'.ran[i] == s.ran[i]; }
    }
  }

  /** The callback that runs, if any, is that of the call that ends. */
  lemma NewRunIsOk(s: Net)
    requires PendingOk(s) && Enabled(s, Receive) && AnswerOk(s, s.toClient[0])
    requires |Next(s, Receive).ran| == |s.ran| + 1
    ensures RunOk(Next(s, Receive), Next(s, Receive).ran[|s.ran|])
    ensures Next(s, Receive).ran[|s.ran|].run.tag in Ended(s) && Ended(s) <= WaitingCalls(s)
  {
    ReceiveEndsItsCall(s);
    AnswerResolvesHit(s.pending, s.toClient[0].msg);
    var id := Hit(s.pending, s.toClient[0].msg).value;
    assert s.pending.waiting[id].tag in Ended(s) && Waits(s, s.pending.waiting[id].tag);
  }

  lemma WriterKeeps(s: Net, e: Event)
    requires Inv(s) && (e.ClientWriter? || e.ServerWriter?)
    ensures Inv(Next(s, e))
  {
    var s' := Next(s, e);
    assert forall k :: Waits(s', k) == Waits(s, k);
    assert forall m :: RequestOk(s', m) == RequestOk(s, m) && AnswerOk(s', m) == AnswerOk(s, m);
    assert forall r :: RunOk(s', r) == RunOk(s, r);
  }

  lemma StepKeeps(s: Net, e: Event)
    requires Inv(s) && Enabled(s, e)
    ensures Inv(Next(s, e))
  {
    match e
    case ClientWriter(_) => WriterKeeps(s, e);
    case ServerWriter(_) => WriterKeeps(s, e);
    case InvokeRemote(_, _, _) =>
      InvokeKeepsPending(s, e);
      InvokeKeepsQueues(s, e);
      InvokeKeepsRuns(s, e);
    case Serve(_) =>
      ServeKeepsQueues(s, e);
      ServeKeepsRuns(s, e);
    case Drop => DropKeeps(s);
    case PeerError(_, _, _) => PeerErrorKeeps(s, e);
    case Receive =>
      ReceiveKeepsPending(s);
      ReceiveKeepsQueues(s);
      ReceiveKeepsRuns(s);
  }

  // ----- The window -----

  /** A step tracks no further call, but the one it makes. */
  lemma StepTracksNoMore(s: Net, e: Event, k: nat)
    requires Inv(s) && Enabled(s, e) && Tracked(Next(s, e), k)
    ensures Tracked(s, k) || (e.InvokeRemote? && k == |s.issued| + 1)
  {
    match e
    case InvokeRemote(_, _, _) =>
      InvokeAddsAtMostOne(s, e);
      if s.clientWrites { PushAddsOne(s.toServer, Next(s, e).toServer[|s.toServer|]); }
    case Serve(_) =>
      PopRemovesOne(s.toServer);
      if s.serverWrites { PushAddsOne(s.toClient, Next(s, e).toClient[|s.toClient|]); }
    case Drop => PopRemovesOne(s.toServer);
    case PeerError(_, _, _) => PushAddsOne(s.toClient, Next(s, e).toClient[|s.toClient|]);
    case Receive =>
      ReceiveEndsAtMostOne(s);
      PopRemovesOne(s.toClient);
    case _ =>
  }

  /** What a call returned stays what it returned. */
  lemma StepKeepsExecutions(s: Net, e: Event)
    requires Inv(s) && Enabled(s, e)
    ensures |s.issued| <= |Next(s, e).issued| && s.issued == Next(s, e).issued[..|s.issued|]
    ensures forall k | k in s.executed :: k in Next(s, e).executed && Next(s, e).executed[k] == s.executed[k]
  {
    if e.Serve? { assert RequestOk(s, s.toServer[0]); }
  }

  lemma ReceiveCarriesItsOwn(s: Net)
    requires Inv(s) && InWindow(s) && Enabled(s, Receive) && |Next(s, Receive).ran| == |s.ran| + 1
    ensures CarriesItsOwn(Next(s, Receive), Next(s, Receive).ran[|s.ran|])
  {
    var m := s.toClient[0];
    assert AnswerOk(s, m);
    NewRunIsOk(s);
    if m.Tagged? {
      assert InQueue(s.toClient, m.call) && Tracked(s, m.call);
      ReceiveEndsItsCall(s);
    }
  }

  lemma StepKeepsWindow(s: Net, e: Event)
    requires Inv(s) && WindowInv(s) && Enabled(s, e) && (e.InvokeRemote? ==> RoomForCall(s))
    ensures WindowInv(Next(s, e))
  {
    var s' := Next(s, e);
    forall k | Tracked(s', k) ensures |s'.issued| - k < UINT_RANGE {
      StepTracksNoMore(s, e, k);
    }
    StepKeepsExecutions(s, e);
    forall i | 0 <= i < |s'.ran| ensures CarriesItsOwn(s', s'.ran[i]) {
      if i < |s.ran| { assert s'.ran[i] == s.ran[i] && CarriesItsOwn(s, s.ran[i]); }
      else { ReceiveCarriesItsOwn(s); }
    }
  }

  // ----- Runs -----

  ghost predicate IsStep(s: Net, e: Event, s': Net) {
    Enabled(s, e) && s' == Next(s, e)
  }

  /** Any run of one connection. */
  ghost predicate IsRun(states: seq<Net>, events: seq<Event>) {
    && |states| == |events| + 1 && states[0] == START
    && forall i | 0 <= i < |events| :: IsStep(states[i], events[i], states[i + 1])
  }

  /** No call of the run is followed by 2^32 further ones while it still matters. */
  ghost predicate StaysInWindow(states: seq<Net>, events: seq<Event>)
    requires |states| == |events| + 1
  {
    forall i | 0 <= i < |events| && events[i].InvokeRemote? :: RoomForCall(states[i])
  }

  lemma StartIsOk()
    ensures Inv(START) && WindowInv(START)
  {
  }

  lemma {:induction false} RunKeepsInv(states: seq<Net>, events: seq<Event>, i: nat)
    requires IsRun(states, events) && i <= |events|
    ensures Inv(states[i])
  {
    if i == 0 {
      StartIsOk();
    } else {
      RunKeepsInv(states, events, i - 1);
      RunStepKeeps(states, events, i - 1);
    }
  }

  lemma RunStepKeeps(states: seq<Net>, events: seq<Event>, i: nat)
    requires IsRun(states, events) && i < |events| && Inv(states[i])
    ensures Inv(states[i + 1])
  {
    assert IsStep(states[i], events[i], states[i + 1]);
    StepKeeps(states[i], events[i]);
  }

  lemma {:induction false} RunKeepsWindow(states: seq<Net>, events: seq<Event>, i: nat)
    requires IsRun(states, events) && StaysInWindow(states, events) && i <= |events|
    ensures WindowInv(states[i]) && states[i].overwritten == 0
  {
    if i == 0 {
      StartIsOk();
    } else {
      RunKeepsWindow(states, events, i - 1);
      RunStepKeepsWindow(states, events, i - 1);
    }
  }

  lemma RunStepKeepsWindow(states: seq<Net>, events: seq<Event>, i: nat)
    requires IsRun(states, events) && StaysInWindow(states, events) && i < |events|
    requires WindowInv(states[i]) && states[i].overwritten == 0
    ensures WindowInv(states[i + 1]) && states[i + 1].overwritten == 0
  {
    RunKeepsInv(states, events, i);
    assert IsStep(states[i], events[i], states[i + 1]);
    if events[i].InvokeRemote? { NextIdIsFree(states[i]); }
    StepKeepsWindow(states[i], events[i]);
  }

  lemma {:induction false} CallsOnlyGrow(states: seq<Net>, events: seq<Event>, i: nat, n: nat)
    requires IsRun(states, events) && i <= n <= |events|
    ensures |states[i].issued| <= |states[n].issued|
  {
    if i < n {
      CallsOnlyGrow(states, events, i, n - 1);
      assert IsStep(states[n - 1], events[n - 1], states[n - 1 + 1]);
      StepMakesCalls(states[n - 1], events[n - 1], states[n]);
    }
  }

  lemma StepMakesCalls(s: Net, e: Event, s': Net)
    requires IsStep(s, e, s')
    ensures |s'.issued| == |s.issued| + if e.InvokeRemote? then 1 else 0
  {
  }

  lemma TrackedCallsWereMade(s: Net, k: nat)
    requires Inv(s) && Tracked(s, k)
    ensures Made(s, k)
  {
    if InQueue(s.toServer, k) {
      var i :| 0 <= i < |s.toServer| && s.toServer[i].Tagged? && s.toServer[i].call == k;
      assert RequestOk(s, s.toServer[i]);
    } else if InQueue(s.toClient, k) {
      var i :| 0 <= i < |s.toClient| && s.toClient[i].Tagged? && s.toClient[i].call == k;
      assert AnswerOk(s, s.toClient[i]);
    }
  }

  /** Main result: a run of up to 2^32 calls stays in the window, whatever happens to its messages. */
  lemma FewCallsStayInWindow(states: seq<Net>, events: seq<Event>)
    requires IsRun(states, events) && |states[|events|].issued| <= UINT_RANGE
    ensures StaysInWindow(states, events)
  {
    forall i | 0 <= i < |events| && events[i].InvokeRemote? ensures RoomForCall(states[i]) {
      var s := states[i];
      RunKeepsInv(states, events, i);
      CallsOnlyGrow(states, events, i + 1, |events|);
      assert IsStep(s, events[i], states[i + 1]);
      StepMakesCalls(s, events[i], states[i + 1]);
      forall k | Tracked(s, k) ensures |s.issued| + 1 - k < UINT_RANGE {
        TrackedCallsWereMade(s, k);
      }
    }
  }

  /** Main result: in every run each callback runs at most once; and as long as the run stays in the
      window, when a reply runs it, the source executed that very call with its own method and
      arguments and returned that value. */
  lemma EveryReplyReachesItsCall(states: seq<Net>, events: seq<Event>, n: nat, i: nat)
    requires IsRun(states, events) && n <= |events| && i < |states[n].ran|
    ensures forall j | 0 <= j < |states[n].ran| && j != i :: states[n].ran[j].run.tag != states[n].ran[i].run.tag
    ensures Made(states[n], states[n].ran[i].run.tag)
    ensures StaysInWindow(states, events) && states[n].ran[i].byReply ==>
              var s, r := states[n], states[n].ran[i]; var k := r.run.tag;
              && k in s.executed
              && s.executed[k] == Execution(s.issued[k - 1].methodId, s.issued[k - 1].args, r.run.arg.value)
              && r.run.arg.methodId == s.issued[k - 1].methodId
  {
    RunKeepsInv(states, events, n);
    assert RunOk(states[n], states[n].ran[i]);
    if StaysInWindow(states, events) {
      RunKeepsWindow(states, events, n);
      assert CarriesItsOwn(states[n], states[n].ran[i]);
    }
  }

  /** Main result: in every run, the request of a call that still waits is in exactly one place: under
      way to the server, answered and under way back, or lost for want of a source or of a write
      function. */
  lemma EveryWaitingCallIsInOnePlace(states: seq<Net>, events: seq<Event>, n: nat, k: nat)
    requires IsRun(states, events) && n <= |events| && Waits(states[n], k)
    ensures var s := states[n];
            && (InQueue(s.toServer, k) || InQueue(s.toClient, k) || k in s.lost)
            && !(InQueue(s.toServer, k) && InQueue(s.toClient, k))
            && !(InQueue(s.toServer, k) && k in s.lost)
            && !(InQueue(s.toClient, k) && k in s.lost)
  {
    RunKeepsInv(states, events, n);
    var s := states[n];
    assert Placed(s, k);
    if InQueue(s.toServer, k) {
      var i :| 0 <= i < |s.toServer| && s.toServer[i].Tagged? && s.toServer[i].call == k;
      assert RequestOk(s, s.toServer[i]);
    }
    if InQueue(s.toClient, k) {
      var i :| 0 <= i < |s.toClient| && s.toClient[i].Tagged? && s.toClient[i].call == k;
      assert AnswerOk(s, s.toClient[i]);
    }
  }

  /** Main result: in every run, calls issued = calls waiting + calls ended by a reply + by an error
      + calls overwritten; within the window none is overwritten. */
  lemma CallsAreConserved(states: seq<Net>, events: seq<Event>, n: nat)
    requires IsRun(states, events) && n <= |events|
    ensures var s := states[n]; |s.issued| == |s.pending.waiting| + s.replied + s.failed + s.overwritten
    ensures StaysInWindow(states, events) ==> states[n].overwritten == 0
  {
    RunKeepsInv(states, events, n);
    if StaysInWindow(states, events) { RunKeepsWindow(states, events, n); }
  }

  /** Main result, where the bound comes from: in every run, a call overwrites a waiting callback
      exactly when the call made 2^32 calls before it still waits. */
  lemma OverwritesExactlyTheCallBefore(states: seq<Net>, events: seq<Event>, n: nat)
    requires IsRun(states, events) && n < |events| && events[n].InvokeRemote?
    ensures var s, k := states[n], |states[n].issued| + 1;
            states[n + 1].overwritten ==
            s.overwritten + if k >= UINT_RANGE && Waits(s, k - UINT_RANGE) then 1 else 0
  {
    assert IsStep(states[n], events[n], states[n + 1]);
    RunKeepsInv(states, events, n);
    NextIdIsTaken(states[n]);
  }

  lemma NextIdIsTaken(s: Net)
    requires PendingOk(s)
    ensures NextRequestId(s.pending.lastId) in s.pending.waiting <==>
            |s.issued| + 1 >= UINT_RANGE && Waits(s, |s.issued| + 1 - UINT_RANGE)
  {
    var n, w := |s.issued| + 1, s.pending.waiting;
    var id := NextRequestId(s.pending.lastId);
    LastIdIsNext(s);
    if id in w {
      if n < w[id].tag + UINT_RANGE { SameIdSameCall(w[id].tag, n); }
      assert Waits(s, n - UINT_RANGE);
    }
    if n >= UINT_RANGE && Waits(s, n - UINT_RANGE) {
      var i :| i in w && w[i].tag == n - UINT_RANGE;
      IdsRepeat(n - UINT_RANGE);
      assert i == id;
    }
  }

  lemma LastIdIsNext(s: Net)
    requires PendingOk(s)
    ensures NextRequestId(s.pending.lastId) == ToUint(|s.issued| + 1)
  {
    UintSuccessor(|s.issued|);
  }
}
