/** What happens once request ids repeat: where a late reply goes. */
module LateReplies {
  import opened Types
  import opened Protocol
  import opened Invocations
  import opened InvokeCorrelation

  /** The last call that was made with the request id of call `k`, when `calls` calls were made. */
  function LastWithSameId(k: nat, calls: nat): nat
    requires k <= calls
  {
    k + (calls - k) / UINT_RANGE * UINT_RANGE
  }

  lemma {:induction false} IdsRepeatEvery(k: nat, rounds: nat)
    ensures ToUint(k + rounds * UINT_RANGE) == ToUint(k)
  {
    if rounds > 0 {
      IdsRepeatEvery(k, rounds - 1);
      IdsRepeat(k + (rounds - 1) * UINT_RANGE);
    }
  }

  lemma LastWithSameIdIsRecent(k: nat, calls: nat)
    requires k <= calls
    ensures var j := LastWithSameId(k, calls);
            && k <= j <= calls && calls - j < UINT_RANGE && ToUint(j) == ToUint(k)
            && (j == k <==> calls - k < UINT_RANGE)
  {
    IdsRepeatEvery(k, (calls - k) / UINT_RANGE);
  }

  /** The callback of a call, run with the reply to call `k`. */
  function RunWith(s: Net, j: nat, k: nat): Ran
    requires Made(s, k) && k in s.executed
  {
    Ran(CallbackRun(j, ReplyArg(s.issued[k - 1].methodId, s.executed[k].value)), true)
  }

  /** Main result: in every run, a reply ends a call iff that call waits under the reply's id. */
  lemma ReplyEndsTheCallUnderItsId(states: seq<Net>, events: seq<Event>, n: nat, j: nat)
    requires IsRun(states, events) && n < |events| && events[n] == Receive
    requires states[n].toClient != [] && states[n].toClient[0].Tagged?
    ensures Waits(states[n], j) && !Waits(states[n + 1], j) <==>
            Waits(states[n], j) && ToUint(j) == ToUint(states[n].toClient[0].call)
  {
    RunKeepsInv(states, events, n);
    assert IsStep(states[n], events[n], states[n + 1]);
    assert AnswerOk(states[n], states[n].toClient[0]);
    ReceiveEndsItsCall(states[n]);
  }

  /** Only the last call made with an id can wait under it. */
  lemma OnlyTheLastWaits(s: Net, j: nat, k: nat)
    requires PendingOk(s) && Made(s, k)
    ensures Waits(s, j) && ToUint(j) == ToUint(k) ==> j == LastWithSameId(k, |s.issued|)
  {
    LastWithSameIdIsRecent(k, |s.issued|);
    if Waits(s, j) && ToUint(j) == ToUint(k) {
      var id :| id in s.pending.waiting && s.pending.waiting[id].tag == j;
      assert EntryOk(s.issued, id, s.pending.waiting[id]);
      SameIdSameCall(j, LastWithSameId(k, |s.issued|));
    }
  }

  /** Main result, where replies go in every run: the reply to call `k` ends the last call made with
      its id if that still waits, runs that call's callback with what `k` returned, and does nothing
      otherwise. So it ends another call iff 2^32 calls followed `k` and that last one still waits. */
  lemma WhereRepliesGo(states: seq<Net>, events: seq<Event>, n: nat)
    requires IsRun(states, events) && n < |events| && events[n] == Receive
    requires states[n].toClient != [] && states[n].toClient[0].Tagged?
    ensures var s, s', k := states[n], states[n + 1], states[n].toClient[0].call;
            && Made(s, k) && k in s.executed
            && var j := LastWithSameId(k, |s.issued|);
               && WaitingCalls(s') == WaitingCalls(s) - {j}
               && s'.ran == s.ran + (if Waits(s, j) && !s.issued[j - 1].isNull then [RunWith(s, j, k)] else [])
               && ((exists other :: other != k && Waits(s, other) && !Waits(s', other)) <==>
                   |s.issued| - k >= UINT_RANGE && Waits(s, j))
  {
    var s, k := states[n], states[n].toClient[0].call;
    RunKeepsInv(states, events, n);
    assert IsStep(s, events[n], states[n + 1]);
    assert AnswerOk(s, s.toClient[0]);
    var j := LastWithSameId(k, |s.issued|);
    LastWithSameIdIsRecent(k, |s.issued|);
    ReceiveEndsTheLast(s);
    ReceiveRunsTheEnded(s, j);
    assert |s.issued| - k >= UINT_RANGE && Waits(s, j) ==> j != k && !Waits(states[n + 1], j);
  }

  lemma ReceiveEndsTheLast(s: Net)
    requires PendingOk(s) && Enabled(s, Receive) && s.toClient[0].Tagged? && AnswerOk(s, s.toClient[0])
    ensures var j := LastWithSameId(s.toClient[0].call, |s.issued|);
            && Ended(s) == (if Waits(s, j) then {j} else {})
            && WaitingCalls(Next(s, Receive)) == WaitingCalls(s) - {j}
  {
    var k := s.toClient[0].call;
    LastWithSameIdIsRecent(k, |s.issued|);
    ReceiveEndsItsCall(s);
    forall x: nat ensures x in Ended(s) <==> x == LastWithSameId(k, |s.issued|) && Waits(s, x) {
      OnlyTheLastWaits(s, x, k);
    }
  }

  lemma ReceiveRunsTheEnded(s: Net, j: nat)
    requires PendingOk(s) && Enabled(s, Receive) && s.toClient[0].Tagged? && AnswerOk(s, s.toClient[0])
    requires Ended(s) == if Waits(s, j) then {j} else {}
    ensures Waits(s, j) ==> Made(s, j)
    ensures Next(s, Receive).ran ==
            s.ran + if Waits(s, j) && !s.issued[j - 1].isNull then [RunWith(s, j, s.toClient[0].call)] else []
  {
    var msg := s.toClient[0].msg;
    var hit := Hit(s.pending, msg);
    assert hit.Some? <==> Ended(s) != {};
    if hit.Some? {
      assert s.pending.waiting[hit.value].tag in Ended(s);
      assert EntryOk(s.issued, hit.value, s.pending.waiting[hit.value]);
    }
    var runs := Answer(s.pending, msg).1;
    assert runs == if Waits(s, j) && !s.issued[j - 1].isNull then [RunWith(s, j, s.toClient[0].call).run] else [];
    assert Next(s, Receive).ran == s.ran + Marked(runs, true);
  }

  // ----- It does happen -----

  const CALL := InvokeRemote("demo.Calc/add", Array([Int(1)]), false)

  /** After the given number of calls and nothing else, all of them wait, the first one under id 1 and
      at the head of the queue. */
  ghost predicate AllWait(s: Net, calls: nat) {
    && |s.issued| == calls && s.clientWrites && s.serverWrites && s.ran == [] && s.executed == map[] && s.toClient == []
    && (calls == 0 ==> s.toServer == [])
    && (calls > 0 ==>
          && 1 in s.pending.waiting && s.pending.waiting[1].tag == 1
          && s.toServer != [] && s.toServer[0] == Tagged(1, Invoke(1, CALL.methodId, CALL.args)))
  }

  lemma NextCallWaits(s: Net, calls: nat)
    requires PendingOk(s) && AllWait(s, calls) && calls < UINT_RANGE
    ensures AllWait(Next(s, CALL), calls + 1)
  {
    LastIdIsNext(s);
  }

  lemma {:induction false} ManyCalls(calls: nat) returns (states: seq<Net>, events: seq<Event>)
    requires calls <= UINT_RANGE
    ensures IsRun(states, events) && AllWait(states[|events|], calls)
  {
    if calls == 0 {
      events := [ClientWriter(true), ServerWriter(true)];
      var s1 := Next(START, events[0]);
      states := [START, s1, Next(s1, events[1])];
      assert IsStep(START, events[0], s1) && IsStep(s1, events[1], states[2]);
    } else {
      states, events := ManyCalls(calls - 1);
      RunKeepsInv(states, events, |events|);
      NextCallWaits(states[|events|], calls - 1);
      states, events := OneMoreStep(states, events, CALL);
    }
  }

  lemma OneMoreStep(states: seq<Net>, events: seq<Event>, e: Event) returns (states': seq<Net>, events': seq<Event>)
    requires IsRun(states, events) && Enabled(states[|events|], e)
    ensures IsRun(states', events') && |events'| == |events| + 1 && events' == events + [e]
    ensures states'[|events|] == states[|events|] && states'[|events'|] == Next(states[|events|], e)
  {
    states', events' := states + [Next(states[|events|], e)], events + [e];
    forall i | 0 <= i < |events'| ensures IsStep(states'[i], events'[i], states'[i + 1]) {
      if i < |events| { assert IsStep(states[i], events[i], states[i + 1]); }
    }
  }

  /** After 2^32 calls that all wait, the next one does overwrite the first. */
  lemma OverwriteIsReachable() returns (states: seq<Net>, events: seq<Event>)
    ensures IsRun(states, events) && states[|events|].overwritten > 0
    ensures AllWait(states[|events| - 1], UINT_RANGE) && states[|events|] == Next(states[|events| - 1], CALL)
  {
    states, events := ManyCalls(UINT_RANGE);
    var s := states[|events|];
    RunKeepsInv(states, events, |events|);
    LastIdIsNext(s);
    states, events := OneMoreStep(states, events, CALL);
  }

  /** And then the late reply to the first call runs the callback of a call that was never executed. */
  lemma LateReplyReachesAnotherCall(value: Json) returns (states: seq<Net>, events: seq<Event>)
    ensures IsRun(states, events)
    ensures var s := states[|events|];
            && s.ran == [Ran(CallbackRun(UINT_RANGE + 1, ReplyArg(CALL.methodId, value)), true)]
            && UINT_RANGE + 1 !in s.executed && s.executed.Keys == {1}
  {
    states, events := OverwriteIsReachable();
    var s := states[|events|];
    RunKeepsInv(states, events, |events| - 1);
    LastIdIsNext(states[|events| - 1]);
    assert s.pending.waiting[1] == Callback(UINT_RANGE + 1, false);
    states, events := OneMoreStep(states, events, Serve(value));
    states, events := OneMoreStep(states, events, Receive);
  }
}
