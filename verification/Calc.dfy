/** The example service: a source that owns a number, and sinks that replicate it. */
module Calc {
  import opened Types
  import opened Protocol
  import opened RemoteNodes
  import ClientNodes
  import Names

  const CALC := "demo.Calc"
  const TOTAL := "demo.Calc/total"
  const HIT_UPPER := "demo.Calc/hitUpper"
  const HIT_LOWER := "demo.Calc/hitLower"

  /** The values that `get<int>()` converts: numbers, and booleans to 0 and 1. It throws for others. */
  predicate IsArithmetic(j: Json) {
    j.IsNumber() || j.Bool?
  }

  /** `get<int>()`. */
  function GetSigned(j: Json): int
    requires IsArithmetic(j)
  {
    if j.Bool? then (if j.b then 1 else 0) else ToInt(j.GetUnsigned())
  }

  function Props(total: int): Json {
    Object(map["total" := Int(total)])
  }

  /** What the source sends when it adds: the new total, and a signal at the upper limit. */
  function AddNotes(total: int): (notes: seq<Call>)
    ensures AreNotes(notes)
  {
    [PropertyChange(TOTAL, Int(total))] + if total >= 10 then [Signal(HIT_UPPER, Array([Int(10)]))] else []
  }

  function SubNotes(total: int): (notes: seq<Call>)
    ensures AreNotes(notes)
  {
    [PropertyChange(TOTAL, Int(total))] + if total <= 0 then [Signal(HIT_LOWER, Array([Int(0)]))] else []
  }

  /** A call of the source: what it does to the total, what it sends, and what it returns.
      `Threw` is an exception (a missing or ill-typed argument), which changes and sends nothing. */
  datatype Outcome = Threw | Done(total: int, notes: seq<Call>, result: Json)

  function Added(total: int, value: int): Outcome {
    var t := ToInt(total + value);
    Done(t, AddNotes(t), Int(t))
  }

  function Subtracted(total: int, value: int): Outcome {
    var t := ToInt(total - value);
    Done(t, SubNotes(t), Int(t))
  }

  function Cleared(total: int): Outcome {
    Done(0, [PropertyChange(TOTAL, Int(0))], Null)
  }

  function FirstArg(args: Json): Option<int> {
    if args.Array? && args.items != [] && IsArithmetic(args.items[0]) then Some(GetSigned(args.items[0])) else None
  }

  /** `olinkInvoke`. */
  function Invoked(total: int, methodId: string, args: Json): Outcome {
    var path := Names.GetMemberName(methodId);
    if path == "add" then
      if FirstArg(args).None? then Threw else Added(total, FirstArg(args).value)
    else if path == "sub" then
      if FirstArg(args).None? then Threw else Subtracted(total, FirstArg(args).value)
    else if path == "clear" then Cleared(total)
    else Done(total, [], Null)
  }

  /** `olinkSetProperty`: nothing is sent when the value is the same. */
  function PropertySet(total: int, propertyId: string, value: Json): Outcome {
    if Names.GetMemberName(propertyId) != "total" then Done(total, [], Null)
    else if !IsArithmetic(value) then Threw
    else if GetSigned(value) == total then Done(total, [], Null)
    else Done(GetSigned(value), [PropertyChange(propertyId, Int(GetSigned(value)))], Null)
  }

  function NotesOf(o: Outcome): seq<Call> {
    if o.Threw? then [] else o.notes
  }

  predicate Notifies(o: Outcome) {
    NotesOf(o) != []
  }

  // ----- What the service does -----

  /** Main result: `add` adds, `sub` subtracts, `clear` clears, on whichever object and whatever further
      arguments there are. */
  lemma MethodsDoWhatTheirNamesSay(total: int, objectId: string, value: int, more: seq<Json>)
    requires Names.SlashFree(objectId) && value == ToInt(value)
    ensures var sum := ToInt(total + value);
            Invoked(total, Names.CreateMemberId(objectId, "add"), Array([Int(value)] + more)) ==
            Done(sum, AddNotes(sum), Int(sum))
    ensures var difference := ToInt(total - value);
            Invoked(total, Names.CreateMemberId(objectId, "sub"), Array([Int(value)] + more)) ==
            Done(difference, SubNotes(difference), Int(difference))
    ensures forall args :: Invoked(total, Names.CreateMemberId(objectId, "clear"), args) ==
                           Done(0, [PropertyChange("demo.Calc/total", Int(0))], Null)
  {
    SignedReadsBack(value);
    MethodNames(objectId);
  }

  lemma MethodNames(objectId: string)
    requires Names.SlashFree(objectId)
    ensures Names.GetMemberName(Names.CreateMemberId(objectId, "add")) == "add"
    ensures Names.GetMemberName(Names.CreateMemberId(objectId, "sub")) == "sub"
    ensures Names.GetMemberName(Names.CreateMemberId(objectId, "clear")) == "clear"
  {
    PlainNames();
    Names.SplitGivesMember(objectId, "add");
    Names.SplitGivesMember(objectId, "sub");
    Names.SplitGivesMember(objectId, "clear");
  }

  lemma PlainNames()
    ensures Names.SlashFree("add") && Names.SlashFree("sub") && Names.SlashFree("clear") && Names.SlashFree("total")
  {
  }

  /** Other names do nothing, and neither does anything that is no member id. */
  lemma OtherMethodsDoNothing(total: int, id: string, args: Json)
    requires Names.GetMemberName(id) != "add" && Names.GetMemberName(id) != "sub" && Names.GetMemberName(id) != "clear"
    ensures Invoked(total, id, args) == Done(total, [], Null)
  {
  }

  /** `add` and `sub` throw exactly if they have no first argument, or one that is no number or boolean. */
  lemma ArgumentsAreNeeded(total: int, objectId: string, name: string, args: Json)
    requires Names.SlashFree(objectId) && (name == "add" || name == "sub")
    ensures Invoked(total, Names.CreateMemberId(objectId, name), args).Threw? <==>
            !(args.Array? && args.items != [] && (args.items[0].Int? || args.items[0].Float? || args.items[0].Bool?))
  {
    PlainNames();
    Names.SplitGivesMember(objectId, name);
  }

  /** The total is notified first, then `hitUpper` after an `add` that reached 10, and `hitLower` after a
      `sub` that reached 0. */
  lemma LimitsAreSignalled(total: int)
    ensures AddNotes(total) ==
            if total >= 10
            then [PropertyChange("demo.Calc/total", Int(total)), Signal("demo.Calc/hitUpper", Array([Int(10)]))]
            else [PropertyChange("demo.Calc/total", Int(total))]
    ensures SubNotes(total) ==
            if total <= 0
            then [PropertyChange("demo.Calc/total", Int(total)), Signal("demo.Calc/hitLower", Array([Int(0)]))]
            else [PropertyChange("demo.Calc/total", Int(total))]
  {
  }

  /** Main result: setting the total stores it and notifies a change; other properties are ignored, and
      a value that is no number or boolean throws. */
  lemma SettingTheTotalStoresIt(total: int, objectId: string, value: int, other: Json)
    requires Names.SlashFree(objectId) && value == ToInt(value)
    ensures var id := Names.CreateMemberId(objectId, "total");
            && PropertySet(total, id, Int(value)) ==
               Done(value, if value == total then [] else [PropertyChange(id, Int(value))], Null)
            && (PropertySet(total, id, other).Threw? <==> !other.Int? && !other.Float? && !other.Bool?)
    ensures forall id | Names.GetMemberName(id) != "total" :: PropertySet(total, id, other) == Done(total, [], Null)
  {
    SignedReadsBack(value);
    PlainNames();
    Names.SplitGivesMember(objectId, "total");
  }

  /** How values are read as integers. */
  lemma ValuesAreReadAsIntegers(b: bool, x: real, n: int)
    requires -INT_MAX as real <= x <= INT_MAX as real
    ensures GetSigned(Bool(b)) == if b then 1 else 0
    ensures var i := GetSigned(Float(x)) as real;
            if x >= 0.0 then i <= x < i + 1.0 else i - 1.0 < x <= i
    ensures (GetSigned(Int(n)) - n) % UINT_RANGE == 0 && -INT_MAX - 1 <= GetSigned(Int(n)) <= INT_MAX
  {
    CastsWrap(n);
    CastsWrap(ToUint(n));
    CastsWrap(if x >= 0.0 then x.Floor else -((-x).Floor));
  }

  class CalcSource {
    /** The node of the last client that linked. */
    var node: RemoteNode?
    var total: int

    constructor ()
      ensures node == null && total == 1
    {
      node, total := null, 1;
    }

    /** The source insists on having a node when it notifies. */
    method Add(value: int) returns (r: int)
      requires node != null
      modifies `total, node`effects
      ensures total == r == ToInt(old(total) + value)
      ensures node.effects == old(node.effects) + Seen(Writes(AddNotes(r), node.hasWriter), node.registry.entries)
    {
      total := ToInt(total + value);
      node.NotifyPropertyChange(TOTAL, Int(total));
      if total >= 10 {
        node.NotifySignal(HIT_UPPER, Array([Int(10)]));
      }
      return total;
    }

    method Sub(value: int) returns (r: int)
      requires node != null
      modifies `total, node`effects
      ensures total == r == ToInt(old(total) - value)
      ensures node.effects == old(node.effects) + Seen(Writes(SubNotes(r), node.hasWriter), node.registry.entries)
    {
      total := ToInt(total - value);
      node.NotifyPropertyChange(TOTAL, Int(total));
      if total <= 0 {
        node.NotifySignal(HIT_LOWER, Array([Int(0)]));
      }
      return total;
    }

    method Clear()
      requires node != null
      modifies `total, node`effects
      ensures total == 0
      ensures node.effects == old(node.effects) +
                              Seen(Writes([PropertyChange(TOTAL, Int(0))], node.hasWriter), node.registry.entries)
    {
      total := 0;
      node.NotifyPropertyChange(TOTAL, Int(total));
    }

    /** `None` is an exception. */
    method OlinkInvoke(methodId: string, args: Json) returns (result: Option<Json>)
      requires Notifies(Invoked(total, methodId, args)) ==> node != null
      modifies `total, (if node == null then {} else {node})`effects
      ensures var o := Invoked(old(total), methodId, args);
              if o.Threw? then result == None && total == old(total)
              else result == Some(o.result) && total == o.total
      ensures node != null ==>
                node.effects == old(node.effects) +
                  Seen(Writes(NotesOf(Invoked(old(total), methodId, args)), node.hasWriter), node.registry.entries)
    {
      var path := Names.GetMemberName(methodId);
      if path == "add" {
        var a := FirstArg(args);
        if a.None? { return None; }
        var r := Add(a.value);
        return Some(Int(r));
      } else if path == "sub" {
        var a := FirstArg(args);
        if a.None? { return None; }
        var r := Sub(a.value);
        return Some(Int(r));
      } else if path == "clear" {
        Clear();
        return Some(Null);
      }
      return Some(Null);
    }

    method OlinkSetProperty(propertyId: string, value: Json) returns (threw: bool)
      requires Notifies(PropertySet(total, propertyId, value)) ==> node != null
      modifies `total, (if node == null then {} else {node})`effects
      ensures var o := PropertySet(old(total), propertyId, value);
              threw == o.Threw? && total == if o.Threw? then old(total) else o.total
      ensures node != null ==>
                node.effects == old(node.effects) +
                  Seen(Writes(NotesOf(PropertySet(old(total), propertyId, value)), node.hasWriter),
                       node.registry.entries)
    {
      if Names.GetMemberName(propertyId) == "total" {
        if !IsArithmetic(value) { return true; }
        var t := GetSigned(value);
        if total != t {
          total := t;
          node.NotifyPropertyChange(propertyId, Int(t));
        }
      }
      return false;
    }

    method OlinkLinked(linked: RemoteNode)
      modifies `node
      ensures node == linked
    {
      node := linked;
    }

    method OlinkUnlinked()
      modifies `node
      ensures node == null
    {
      node := null;
    }

    method OlinkCollectProperties() returns (props: Json)
      ensures props == Props(total)
    {
      return Props(total);
    }
  }

  /** The replica's state. */
  datatype Replica = Replica(total: int, ready: bool)

  /** What one message from the server does to the sink registered under the object. */
  function Received(r: Replica, c: Call): Replica {
    match c
    case Init(objectId, props) =>
      if objectId != CALC then r
      else if props.Object? && "total" in props.fields && IsArithmetic(props.fields["total"])
      then Replica(GetSigned(props.fields["total"]), true)
      else r.(ready := true)
    case PropertyChange(propertyId, value) =>
      if Names.GetObjectId(propertyId) == CALC && Names.GetMemberName(propertyId) == "total" && IsArithmetic(value)
      then r.(total := GetSigned(value))
      else r
    case _ => r
  }

  /** Main result: the properties collected at any total bring a sink in any state to that total. */
  lemma CollectedPropertiesReplicate(total: int, r: Replica)
    requires total == ToInt(total)
    ensures Received(r, Init(CALC, Props(total))) == Replica(total, true)
  {
    assert Props(total).fields["total"] == Int(total);
    SignedReadsBack(total);
  }

  /** Main result: of all that arrives but Init, exactly the property changes of the sink's own total that
      carry a number or boolean set it; the rest leaves the sink alone. */
  lemma OnlyTheTotalIsTaken(r: Replica, c: Call)
    requires !c.Init?
    ensures Received(r, c) ==
            if c.PropertyChange? && c.memberId == Names.CreateMemberId("demo.Calc", "total")
               && (c.value.Int? || c.value.Float? || c.value.Bool?)
            then Replica(GetSigned(c.value), r.ready)
            else r
  {
    if c.PropertyChange? {
      TotalParts(c.memberId);
    }
  }

  lemma TotalParts(id: string)
    ensures Names.GetObjectId(id) == CALC && Names.GetMemberName(id) == "total" <==>
            id == Names.CreateMemberId("demo.Calc", "total")
  {
    PlainNames();
    assert Names.SlashFree("demo.Calc");
    Names.SplitGivesObject(CALC, "total");
    Names.SplitGivesMember(CALC, "total");
    if Names.GetMemberName(id) == "total" { Names.JoinInvertsSplit(id); }
  }

  /** An Init of another object leaves the sink alone, one without a usable total makes it ready only. */
  lemma OnlyItsOwnInitIsTaken(r: Replica, objectId: string, props: Json)
    ensures objectId != "demo.Calc" ==> Received(r, Init(objectId, props)) == r
    ensures Received(r, Init("demo.Calc", props)) ==
            if props.Object? && "total" in props.fields
               && (var v := props.fields["total"]; v.Int? || v.Float? || v.Bool?)
            then Replica(GetSigned(props.fields["total"]), true)
            else Replica(r.total, true)
  {
  }

  lemma SignedReadsBack(t: int)
    requires t == ToInt(t)
    ensures GetSigned(Int(t)) == t
  {
  }

  class CalcSink {
    var total: int
    var ready: bool
    var name: string
    /** The client node that delivered the last Init, until the release. */
    var node: ClientNodes.ClientNode?

    function State(): Replica
      reads this
    {
      Replica(total, ready)
    }

    constructor (total: int)
      ensures State() == Replica(total, false) && node == null
    {
      this.total, ready, name, node := total, false, "", null;
    }

    /** The sink is ready and knows its node before it reads the properties. */
    method OlinkOnInit(objectId: string, props: Json, sender: ClientNodes.ClientNode)
      modifies this
      ensures State() == Received(old(State()), Init(CALC, props))
      ensures name == objectId && node == sender
    {
      name, ready, node := objectId, true, sender;
      if props.Object? && "total" in props.fields && IsArithmetic(props.fields["total"]) {
        var t := GetSigned(props.fields["total"]);
        if total != t {
          total := t;
        }
      }
    }

    method OlinkOnPropertyChanged(propertyId: string, value: Json)
      requires Names.GetObjectId(propertyId) == CALC
      modifies `total
      ensures State() == Received(old(State()), PropertyChange(propertyId, value))
    {
      if Names.GetMemberName(propertyId) == "total" && IsArithmetic(value) {
        var t := GetSigned(value);
        if total != t {
          total := t;
        }
      }
    }

    method OlinkOnRelease()
      modifies `ready, `node
      ensures State() == old(State()).(ready := false) && node == null
    {
      ready, node := false, null;
    }
  }
}
