/** The table of calls a client node waits for, as a value. */
module Invocations {
  import opened Types
  import opened Protocol

  /** An `InvokeReplyFunc`: which one it is, and whether it is the empty function. */
  datatype Callback = Callback(tag: nat, isNull: bool)

  /** `InvokeReplyArg`. */
  datatype ReplyArg = ReplyArg(methodId: string, value: Json)

  /** One execution of a callback. */
  datatype CallbackRun = CallbackRun(tag: nat, arg: ReplyArg)

  /** `m_nextRequestId` and `m_invokesPending`. */
  datatype Pending = Pending(lastId: nat, waiting: map<nat, Callback>)

  function NextRequestId(lastId: nat): (id: nat)
    ensures id < UINT_RANGE
  {
    ToUint(lastId + 1)
  }

  /** `invokeRemote` up to the message: the table and the id used. */
  function Issue(p: Pending, callback: Callback): (Pending, nat) {
    var id := NextRequestId(p.lastId);
    (Pending(id, p.waiting[id := callback]), id)
  }

  /** Taking the entry of an answered id out of the table. */
  function Resolve(p: Pending, id: nat): Pending {
    p.(waiting := p.waiting - {id})
  }

  /** The callback execution an answer causes, if any. */
  function RunsOf(p: Pending, id: nat, arg: ReplyArg): seq<CallbackRun> {
    if id in p.waiting && !p.waiting[id].isNull then [CallbackRun(p.waiting[id].tag, arg)] else []
  }

  /** The errors that end a pending call. */
  predicate EndsInvoke(msgType: int) {
    msgType == INVOKE || msgType == INVOKE_REPLY
  }

  /** `handleInvokeReply` and `handleError` on the table. */
  function Answer(p: Pending, c: Call): (Pending, seq<CallbackRun>) {
    match c
    case InvokeReply(id, methodId, value) => (Resolve(p, id), RunsOf(p, id, ReplyArg(methodId, value)))
    case Error(msgType, signedId, _) =>
      if EndsInvoke(msgType)
      then (Resolve(p, ToUint(signedId)), RunsOf(p, ToUint(signedId), ReplyArg("", Null)))
      else (p, [])
    case _ => (p, [])
  }

  /** Unknown and repeated ids leave the table as it is and run nothing. */
  lemma UnknownIdsChangeNothing(p: Pending, c: Call)
    requires c.InvokeReply? ==> c.requestId !in p.waiting
    requires c.Error? ==> ToUint(c.signedId) !in p.waiting
    ensures Answer(p, c) == (p, [])
  {
    if c.InvokeReply? { assert p.waiting - {c.requestId} == p.waiting; }
    if c.Error? { assert p.waiting - {ToUint(c.signedId)} == p.waiting; }
  }

  /** Taking an answer: what is left waiting, and the callback that runs. */
  predicate Ends(p: Pending, id: nat, arg: ReplyArg, after: (Pending, seq<CallbackRun>)) {
    && after.0 == p.(waiting := p.waiting - {id})
    && after.1 == if id in p.waiting && !p.waiting[id].isNull then [CallbackRun(p.waiting[id].tag, arg)] else []
  }

  /** Main result: a reply ends its call, and runs its callback with method and value. */
  lemma RepliesEndTheirCall(p: Pending, requestId: nat, methodId: string, value: Json)
    requires requestId < UINT_RANGE
    ensures Dispatch(InvokeReplyMessage(requestId, methodId, value)) == Ok(InvokeReply(requestId, methodId, value))
    ensures Ends(p, requestId, ReplyArg(methodId, value), Answer(p, InvokeReply(requestId, methodId, value)))
  {
  }

  /** Main result: an error about an invocation or its reply ends that call with an empty answer; errors
      about other messages end nothing, whatever id they carry. */
  lemma ErrorsEndInvocationsOnly(p: Pending, about: Call, signedId: int, error: string)
    requires about.Typed() && signedId == ToInt(signedId)
    ensures var e := Error(Encode(about).items[0].i, signedId, error);
            && Dispatch(ErrorMessage(Encode(about).items[0].i, signedId, error)) == Ok(e)
            && if about.Invoke? || about.InvokeReply?
               then Ends(p, ToUint(signedId), ReplyArg("", Null), Answer(p, e))
               else Answer(p, e) == (p, [])
    ensures (about.Invoke? || about.InvokeReply?) && signedId == ToInt(about.requestId) ==>
              ToUint(signedId) == about.requestId
  {
  }

  /** Error messages whose type is that of neither end nothing either. */
  lemma ErrorsAboutNoMessageEndNothing(p: Pending, msgType: int, signedId: int, error: string)
    requires msgType != 30 && msgType != 31
    ensures Answer(p, Error(msgType, signedId, error)) == (p, [])
  {
  }

  /** Main result: an Error message built for any 32-bit request id resolves, once dispatched,
      exactly that pending call when it is about an invocation, and none otherwise. */
  lemma ErrorResolvesItsCall(p: Pending, msgType: int, requestId: nat, error: string)
    requires msgType == ToInt(msgType) && requestId < UINT_RANGE
    ensures var c := Error(msgType, ToInt(requestId), error);
            && Dispatch(ErrorMessage(msgType, ToInt(requestId), error)) == Ok(c)
            && Answer(p, c).0.waiting == (if EndsInvoke(msgType) then p.waiting - {requestId} else p.waiting)
            && (EndsInvoke(msgType) && requestId in p.waiting && !p.waiting[requestId].isNull ==>
                  Answer(p, c).1 == [CallbackRun(p.waiting[requestId].tag, ReplyArg("", Null))])
  {
  }
}
