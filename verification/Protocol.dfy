/** The ObjectLink messages: the builders and the validating dispatcher. */
module Protocol {
  import opened Types

  /** A JSON value, as the message converter delivers it. */
  datatype Json =
    | Null
    | Bool(b: bool)
    | Int(i: int)
    | Float(x: real)
    | Text(s: string)
    | Array(items: seq<Json>)
    | Object(fields: map<string, Json>)
  {
    predicate IsNumberInteger() { Int? }

    predicate IsNumber() { Int? || Float? }

    /** `get<unsigned int>()` of a number. Floating point values are cut toward zero. */
    function GetUnsigned(): nat
      requires IsNumber()
    {
      if Int? then ToUint(i)
      else if x >= 0.0 then ToUint(x.Floor)
      else ToUint(-((-x).Floor))
    }
  }

  const LINK := 10
  const INIT := 11
  const UNLINK := 12
  const SET_PROPERTY := 20
  const PROPERTY_CHANGE := 21
  const INVOKE := 30
  const INVOKE_REPLY := 31
  const SIGNAL := 40
  const ERROR := 99

  /** One call of a handler of `IProtocolListener`. */
  datatype Call =
    | Link(objectId: string)
    | Unlink(objectId: string)
    | Init(objectId: string, props: Json)
    | SetProperty(memberId: string, value: Json)
    | PropertyChange(memberId: string, value: Json)
    | Invoke(requestId: nat, memberId: string, args: Json)
    | InvokeReply(requestId: nat, memberId: string, value: Json)
    | Signal(memberId: string, args: Json)
    | Error(msgType: int, signedId: int, text: string)
  {
    /** The number arguments fit their C++ types. */
    predicate Typed() {
      && ((Invoke? || InvokeReply?) ==> requestId < UINT_RANGE)
      && (Error? ==> msgType == ToInt(msgType) && signedId == ToInt(signedId))
    }
  }

  datatype DispatchError =
    | NotAnArray
    | EmptyArray
    | TypeNotInteger
    | Truncated(msgType: int)
    | WrongField(msgType: int, index: nat)
    | NotSupported

  // ----- The nine builders -----

  function LinkMessage(objectId: string): Json {
    Array([Int(LINK), Text(objectId)])
  }

  function UnlinkMessage(objectId: string): Json {
    Array([Int(UNLINK), Text(objectId)])
  }

  function InitMessage(objectId: string, props: Json): Json {
    Array([Int(INIT), Text(objectId), props])
  }

  function SetPropertyMessage(propertyId: string, value: Json): Json {
    Array([Int(SET_PROPERTY), Text(propertyId), value])
  }

  function PropertyChangeMessage(propertyId: string, value: Json): Json {
    Array([Int(PROPERTY_CHANGE), Text(propertyId), value])
  }

  function InvokeMessage(requestId: nat, methodId: string, args: Json): Json {
    Array([Int(INVOKE), Int(requestId), Text(methodId), args])
  }

  function InvokeReplyMessage(requestId: nat, methodId: string, value: Json): Json {
    Array([Int(INVOKE_REPLY), Int(requestId), Text(methodId), value])
  }

  function SignalMessage(signalId: string, args: Json): Json {
    Array([Int(SIGNAL), Text(signalId), args])
  }

  function ErrorMessage(msgType: int, requestId: int, error: string): Json {
    Array([Int(ERROR), Int(msgType), Int(requestId), Text(error)])
  }

  /** The builder for a call. */
  function Encode(c: Call): Json {
    match c
    case Link(objectId) => LinkMessage(objectId)
    case Unlink(objectId) => UnlinkMessage(objectId)
    case Init(objectId, props) => InitMessage(objectId, props)
    case SetProperty(propertyId, value) => SetPropertyMessage(propertyId, value)
    case PropertyChange(propertyId, value) => PropertyChangeMessage(propertyId, value)
    case Invoke(requestId, methodId, args) => InvokeMessage(requestId, methodId, args)
    case InvokeReply(requestId, methodId, value) => InvokeReplyMessage(requestId, methodId, value)
    case Signal(signalId, args) => SignalMessage(signalId, args)
    case Error(msgType, requestId, error) => ErrorMessage(msgType, requestId, error)
  }

  // ----- The dispatcher -----

  /** `handleMessage` up to the handler call: which handler runs, with what arguments. */
  function Dispatch(msg: Json): Result<Call, DispatchError> {
    if !msg.Array? then Err(NotAnArray)
    else if |msg.items| < 1 then Err(EmptyArray)
    else if !msg.items[0].IsNumberInteger() then Err(TypeNotInteger)
    else
      var a := msg.items;
      var t := ToInt(a[0].i);
      if t == LINK then
        if |a| < 2 then Err(Truncated(t))
        else if !a[1].Text? then Err(WrongField(t, 1))
        else Ok(Link(a[1].s))
      else if t == INIT then
        if |a| < 3 then Err(Truncated(t))
        else if !a[1].Text? then Err(WrongField(t, 1))
        else Ok(Init(a[1].s, a[2]))
      else if t == UNLINK then
        if |a| < 2 then Err(Truncated(t))
        else if !a[1].Text? then Err(WrongField(t, 1))
        else Ok(Unlink(a[1].s))
      else if t == SET_PROPERTY then
        if |a| < 3 then Err(Truncated(t))
        else if !a[1].Text? then Err(WrongField(t, 1))
        else Ok(SetProperty(a[1].s, a[2]))
      else if t == PROPERTY_CHANGE then
        if |a| < 3 then Err(Truncated(t))
        else if !a[1].Text? then Err(WrongField(t, 1))
        else Ok(PropertyChange(a[1].s, a[2]))
      else if t == INVOKE then
        if |a| < 4 then Err(Truncated(t))
        else if !a[1].IsNumber() then Err(WrongField(t, 1))
        else if !a[2].Text? then Err(WrongField(t, 2))
        else Ok(Invoke(a[1].GetUnsigned(), a[2].s, a[3]))
      else if t == INVOKE_REPLY then
        if |a| < 4 then Err(Truncated(t))
        else if !a[1].IsNumber() then Err(WrongField(t, 1))
        else if !a[2].Text? then Err(WrongField(t, 2))
        else Ok(InvokeReply(a[1].GetUnsigned(), a[2].s, a[3]))
      else if t == SIGNAL then
        if |a| < 3 then Err(Truncated(t))
        else if !a[1].Text? then Err(WrongField(t, 1))
        else Ok(Signal(a[1].s, a[2]))
      else if t == ERROR then
        if |a| < 4 then Err(Truncated(t))
        else if !a[1].IsNumberInteger() then Err(WrongField(t, 1))
        else if !a[2].IsNumberInteger() then Err(WrongField(t, 2))
        else if !a[3].Text? then Err(WrongField(t, 3))
        else Ok(Error(ToInt(a[1].i), ToInt(a[2].i), a[3].s))
      else Err(NotSupported)
  }

  // ----- The wire layout, stated independently of builders and dispatcher -----

  /** What one array slot of a message carries. */
  datatype Slot =
    | Signed(int)
    | Unsigned(nat)
    | Name(string)
    | Payload(Json)

  /** The documented layout of each message. */
  function Layout(c: Call): seq<Slot> {
    match c
    case Link(objectId) => [Signed(LINK), Name(objectId)]
    case Unlink(objectId) => [Signed(UNLINK), Name(objectId)]
    case Init(objectId, props) => [Signed(INIT), Name(objectId), Payload(props)]
    case SetProperty(id, value) => [Signed(SET_PROPERTY), Name(id), Payload(value)]
    case PropertyChange(id, value) => [Signed(PROPERTY_CHANGE), Name(id), Payload(value)]
    case Invoke(requestId, id, args) => [Signed(INVOKE), Unsigned(requestId), Name(id), Payload(args)]
    case InvokeReply(requestId, id, value) =>
      [Signed(INVOKE_REPLY), Unsigned(requestId), Name(id), Payload(value)]
    case Signal(id, args) => [Signed(SIGNAL), Name(id), Payload(args)]
    case Error(msgType, requestId, error) =>
      [Signed(ERROR), Signed(msgType), Signed(requestId), Name(error)]
  }

  /** A received value counts as a slot: integers up to the width of the C++ type, request ids
      also as floating point numbers, names and payloads exactly. */
  predicate ReadsAs(j: Json, slot: Slot) {
    match slot
    case Signed(v) => j.IsNumberInteger() && ToInt(j.i) == v
    case Unsigned(v) => j.IsNumber() && j.GetUnsigned() == v
    case Name(s) => j == Text(s)
    case Payload(p) => j == p
  }

  predicate ReadsAsCall(a: seq<Json>, c: Call) {
    && |Layout(c)| <= |a|
    && forall i | 0 <= i < |Layout(c)| :: ReadsAs(a[i], Layout(c)[i])
  }

  /** The numbers on the wire. */
  lemma MessagesStartWithTheirNumber(c: Call)
    ensures Encode(c).Array? && Encode(c).items != []
    ensures Encode(c).items[0] ==
            match c
            case Link(_) => Int(10)
            case Init(_, _) => Int(11)
            case Unlink(_) => Int(12)
            case SetProperty(_, _) => Int(20)
            case PropertyChange(_, _) => Int(21)
            case Invoke(_, _, _) => Int(30)
            case InvokeReply(_, _, _) => Int(31)
            case Signal(_, _) => Int(40)
            case Error(_, _, _) => Int(99)
  {
  }

  /** What the dispatcher asks of an array slot. */
  datatype Kind = Integer | Number | String | Anything

  /** What it asks of a message of each type; nothing for types it does not know. */
  function Shape(msgType: int): seq<Kind> {
    match msgType
    case 10 => [Integer, String]
    case 11 => [Integer, String, Anything]
    case 12 => [Integer, String]
    case 20 => [Integer, String, Anything]
    case 21 => [Integer, String, Anything]
    case 30 => [Integer, Number, String, Anything]
    case 31 => [Integer, Number, String, Anything]
    case 40 => [Integer, String, Anything]
    case 99 => [Integer, Integer, Integer, String]
    case _ => []
  }

  predicate IsOf(j: Json, kind: Kind) {
    match kind
    case Integer => j.Int?
    case Number => j.Int? || j.Float?
    case String => j.Text?
    case Anything => true
  }

  /** Main result: each refusal has its reason. Size is looked at before fields, and fields in order. */
  lemma RefusalsAreExact(msg: Json, error: DispatchError)
    ensures Dispatch(msg) == Err(error) <==>
            match error
            case NotAnArray => !msg.Array?
            case EmptyArray => msg == Array([])
            case TypeNotInteger => msg.Array? && msg.items != [] && !msg.items[0].Int?
            case NotSupported => HasType(msg) && Shape(ToInt(msg.items[0].i)) == []
            case Truncated(t) => HasType(msg) && t == ToInt(msg.items[0].i) && |msg.items| < |Shape(t)|
            case WrongField(t, i) => HasType(msg) && t == ToInt(msg.items[0].i) && i < |Shape(t)| <= |msg.items|
                                     && !IsOf(msg.items[i], Shape(t)[i])
                                     && forall k | 0 <= k < i :: IsOf(msg.items[k], Shape(t)[k])
  {
  }

  predicate HasType(msg: Json) {
    msg.Array? && msg.items != [] && msg.items[0].Int?
  }

  /** A floating point request id is cut to the integer below it, an integer to the width of the type. */
  lemma RequestIdsAreCut(x: real, i: int)
    requires 0.0 <= x < UINT_RANGE as real
    ensures var id := Float(x).GetUnsigned(); id as real <= x < id as real + 1.0
    ensures (Int(i).GetUnsigned() - i) % UINT_RANGE == 0 && Int(i).GetUnsigned() < UINT_RANGE
  {
    CastsWrap(i);
  }

  /** Main result: the dispatcher calls a handler exactly when the message has its layout. */
  lemma DispatchIsExact(msg: Json, c: Call)
    ensures Dispatch(msg) == Ok(c) <==> msg.Array? && ReadsAsCall(msg.items, c)
    ensures Dispatch(msg) == Ok(c) ==> c.Typed()
  {
  }

  /** At most one layout fits a message, so one message makes one handler call. */
  lemma LayoutsAreDisjoint(a: seq<Json>, c: Call, d: Call)
    requires ReadsAsCall(a, c) && ReadsAsCall(a, d)
    ensures c == d
  {
    DispatchIsExact(Array(a), c);
    DispatchIsExact(Array(a), d);
  }

  /** Main result: every builder's message triggers its own handler with the original arguments. */
  lemma RoundTrip(c: Call)
    requires c.Typed()
    ensures Dispatch(Encode(c)) == Ok(c)
  {
  }

  lemma EncodeIsInjective(c: Call, d: Call)
    requires c.Typed() && d.Typed() && Encode(c) == Encode(d)
    ensures c == d
  {
  }

  /** Appended elements change no outcome but that of a message that was too short. */
  lemma TrailingElementsAreIgnored(a: seq<Json>, more: seq<Json>)
    ensures var r := Dispatch(Array(a));
            (r.Err? && (r.error.Truncated? || r.error.EmptyArray?)) || Dispatch(Array(a + more)) == r
    ensures forall c :: Dispatch(Array(a + more)) == Ok(c) && |a| >= |Layout(c)| ==> Dispatch(Array(a)) == Ok(c)
  {
  }

  /** A request id, also one at or above 2^31, survives the signed field of an Error message. */
  lemma ErrorKeepsRequestId(msgType: int, requestId: nat, error: string)
    requires msgType == ToInt(msgType) && requestId < UINT_RANGE
    ensures Dispatch(ErrorMessage(msgType, ToInt(requestId), error)) == Ok(Error(msgType, ToInt(requestId), error))
    ensures ToUint(ToInt(requestId)) == requestId
  {
  }

  // ----- The class -----

  /** A listener, seen through the handler calls it received. */
  class Listener {
    var handled: seq<Call>

    constructor ()
      ensures handled == []
    {
      handled := [];
    }
  }

  class ProtocolHandler {
    var lastError: Option<DispatchError>

    constructor ()
      ensures lastError == None
    {
      lastError := None;
    }

    /** `true` means exactly one handler call, `false` none and an error text. */
    method HandleMessage(msg: Json, listener: Listener) returns (ok: bool)
      modifies this, listener
      ensures ok <==> exists c :: Dispatch(msg) == Ok(c)
      ensures ok ==> lastError == None && |listener.handled| == |old(listener.handled)| + 1
      ensures ok ==> listener.handled[..|old(listener.handled)|] == old(listener.handled)
      ensures ok ==> Dispatch(msg) == Ok(listener.handled[|old(listener.handled)|])
      ensures !ok ==> listener.handled == old(listener.handled)
      ensures !ok ==> lastError.Some? && Dispatch(msg) == Err(lastError.value)
    {
      lastError := None;
      match Dispatch(msg)
      case Ok(call) =>
        listener.handled := listener.handled + [call];
        return true;
      case Err(error) =>
        lastError := Some(error);
        return false;
    }
  }
}
