/** The library's mutexes: which operation takes which, and why no set of threads can get stuck. */
module LockOrder {

  datatype Mutex =
    | NodeMutex(node: nat)
    | InvokesMutex(node: nat)
    | EntriesMutex(registry: nat)
    | StorageMutex(registry: nat)
    | LogMutex(logger: nat)

  /** What a thread does as far as mutexes go. `CallOut` enters user code that may call the library
      again: write functions, reply callbacks, sinks and sources. `CallLog` runs the log function,
      which must not. */
  datatype LockStep = Acquire(m: Mutex) | Release(m: Mutex) | CallOut | CallLog

  const TOP_RANK: nat := 2

  /** Mutexes are taken in the order of their ranks. */
  function Rank(m: Mutex): (r: nat)
    ensures r <= TOP_RANK
  {
    match m
    case NodeMutex(_) => 0
    case InvokesMutex(_) => 0
    case EntriesMutex(_) => 1
    case StorageMutex(_) => 2
    case LogMutex(_) => 2
  }

  /** From the held mutexes on: every mutex taken outranks those held, only held ones are released,
      user code runs with none held, and none is held at the end. */
  ghost predicate Disciplined(p: seq<LockStep>, held: set<Mutex>)
    decreases |p|
  {
    if p == [] then held == {}
    else
      match p[0]
      case Acquire(m) => (forall h | h in held :: Rank(h) < Rank(m)) && Disciplined(p[1..], held + {m})
      case Release(m) => m in held && Disciplined(p[1..], held - {m})
      case CallOut => held == {} && Disciplined(p[1..], held)
      case CallLog => Disciplined(p[1..], held)
  }

  // ----- What the operations do -----

  /** Code as far as mutexes go: a critical section that calls nothing, a log line, a call of user
      code, a critical section around further code, a sequence, a branch, and a loop. */
  datatype Code =
    | Skip
    | Lock(m: Mutex)
    | Log(logger: nat)
    | User
    | Within(m: Mutex, inner: Code)
    | Seq(first: Code, second: Code)
    | Branch(one: Code, other: Code)
    | Loop(body: Code)

  /** The code may run while mutexes ranking below `r` are held: it takes mutexes of rank `r` and up
      in ascending order, and calls user code only if none can be held. */
  predicate Fits(c: Code, r: nat)
    decreases c
  {
    match c
    case Skip => true
    case Lock(m) => Rank(m) >= r
    case Log(_) => TOP_RANK >= r
    case User => r == 0
    case Within(m, inner) => Rank(m) >= r && Fits(inner, Rank(m) + 1)
    case Seq(first, second) => Fits(first, r) && Fits(second, r)
    case Branch(one, other) => Fits(one, r) && Fits(other, r)
    case Loop(body) => Fits(body, r)
  }

  function Then(first: Code, second: Code): (c: Code)
    ensures Fits(first, 0) && Fits(second, 0) ==> Fits(c, 0)
    ensures forall m {:trigger Always(c, m)} :: Always(c, m) <==> Always(first, m) || Always(second, m)
  {
    Seq(first, second)
  }

  function Either(one: Code, other: Code): (c: Code)
    ensures Fits(one, 0) && Fits(other, 0) ==> Fits(c, 0)
    ensures forall m {:trigger Always(c, m)} :: Always(c, m) <==> Always(one, m) && Always(other, m)
  {
    Branch(one, other)
  }

  function Maybe(code: Code): Code {
    Either(code, Skip)
  }

  /** The public operations of registry `r` and node `n`, and the handlers of incoming messages. */
  datatype Operation =
    | SetNode(r: nat)
    | UnsetNode(r: nat)
    | AddSink(r: nat)
    | RemoveSink(r: nat)
    | AddSource(r: nat)
    | RemoveSource(r: nat)
    | GetSinkOrSource(r: nat)
    | GetObjectIds(r: nat)
    | GetNode(r: nat)
    | GetNodes(r: nat)
    | RegisterNode(r: nat)
    | UnregisterNode(r: nat)
    | AddNodeForSource(r: nat)
    | RemoveNodeFromSource(r: nat)
    | OnLog(logger: nat)
    | SetLogLevel(logger: nat)
    | OnWrite(n: nat)
    | SetMessageFormat(n: nat)
    | SetMaxMessageSize(n: nat)
    | EmitWrite(n: nat)
    | LinkRemote(n: nat, r: nat)
    | UnlinkRemote(n: nat, r: nat)
    | InvokeRemote(n: nat)
    | SetRemoteProperty(n: nat)
    | DestroyClientNode(n: nat, r: nat)
    | DestroyRemoteNode(r: nat)
    | HandleMalformed(n: nat)
    | HandleUnexpected(n: nat)
    | HandleSinkMessage(n: nat, r: nat)
    | HandleInvokeReply(n: nat)
    | HandleError(n: nat)
    | HandleLink(n: nat, r: nat)
    | HandleUnlink(n: nat, r: nat)
    | HandleInvoke(n: nat, r: nat)
    | HandleSetProperty(n: nat, r: nat)

  function Body(op: Operation): Code {
    match op
    case SetNode(r) => SetNodeCode(r)
    case UnsetNode(r) => EntryCode(r)
    case AddSink(r) => Either(Log(r), Then(User, Then(EntryCode(r), Maybe(Log(r)))))
    case RemoveSink(r) => EntryCode(r)
    case AddSource(r) => Either(Log(r), Then(User, Then(Log(r), Within(EntriesMutex(r), Branch(Log(r), Skip)))))
    case RemoveSource(r) => EntryCode(r)
    case GetSinkOrSource(r) => EntryCode(r)
    case GetObjectIds(r) => Lock(EntriesMutex(r))
    case GetNode(r) => Then(Log(r), Within(EntriesMutex(r), Branch(Lock(StorageMutex(r)), Skip)))
    case GetNodes(r) => Then(Log(r), Within(EntriesMutex(r), Loop(Lock(StorageMutex(r)))))
    case RegisterNode(r) => Either(Log(r), Lock(StorageMutex(r)))
    case UnregisterNode(r) => UnregisterCode(r)
    case AddNodeForSource(r) => AddNodeCode(r)
    case RemoveNodeFromSource(r) => EntryCode(r)
    case OnLog(logger) => Lock(LogMutex(logger))
    case SetLogLevel(logger) => Lock(LogMutex(logger))
    case OnWrite(n) => Lock(NodeMutex(n))
    case SetMessageFormat(n) => Lock(NodeMutex(n))
    case SetMaxMessageSize(n) => Lock(NodeMutex(n))
    case EmitWrite(n) => WriteCode(n)
    case LinkRemote(n, r) => Then(Log(n), Then(WriteCode(n), Then(EntryCode(r), SetNodeCode(r))))
    case UnlinkRemote(n, r) => UnlinkCode(n, r)
    case InvokeRemote(n) => Then(Log(n), Then(Lock(InvokesMutex(n)), WriteCode(n)))
    case SetRemoteProperty(n) => Then(Log(n), WriteCode(n))
    case DestroyClientNode(n, r) => Then(Lock(EntriesMutex(r)), Then(Loop(UnlinkCode(n, r)), UnregisterCode(r)))
    case DestroyRemoteNode(r) => UnregisterCode(r)
    case HandleMalformed(n) => Then(Lock(NodeMutex(n)), Maybe(Log(n)))
    case HandleUnexpected(n) => Then(Lock(NodeMutex(n)), Either(Log(n), PayloadLog(n)))
    case HandleSinkMessage(n, r) =>
      Then(Lock(NodeMutex(n)), Then(Either(Log(n), PayloadLog(n)), Then(EntryCode(r), Either(User, Log(n)))))
    case HandleInvokeReply(n) =>
      Then(Lock(NodeMutex(n)), Then(PayloadLog(n), Then(Lock(InvokesMutex(n)), Either(User, Log(n)))))
    case HandleError(n) =>
      Then(Lock(NodeMutex(n)), Then(Log(n), Maybe(Then(Lock(InvokesMutex(n)), Maybe(User)))))
    case HandleLink(n, r) =>
      Then(Lock(NodeMutex(n)), Then(Log(n), Then(EntryCode(r),
        Either(Then(AddNodeCode(r), Then(User, Then(User, WriteCode(n)))), Log(n)))))
    case HandleUnlink(n, r) => Then(Lock(NodeMutex(n)), Then(EntryCode(r), Maybe(Then(User, EntryCode(r)))))
    case HandleInvoke(n, r) => Then(Lock(NodeMutex(n)), Then(EntryCode(r), Maybe(Then(User, WriteCode(n)))))
    case HandleSetProperty(n, r) => Then(Lock(NodeMutex(n)), Then(EntryCode(r), Maybe(User)))
  }

  /** `emitLogWithPayload` looks at the log level under the mutex before it logs. */
  function PayloadLog(logger: nat): (c: Code)
    ensures Fits(c, 0)
  {
    Then(Lock(LogMutex(logger)), Maybe(Log(logger)))
  }

  /** A log line, then a critical section on the entries: most registry functions. */
  function EntryCode(r: nat): (c: Code)
    ensures Fits(c, 0)
  {
    Then(Log(r), Lock(EntriesMutex(r)))
  }

  /** Logs when the node is gone, and goes on; logs when another node is set. */
  function SetNodeCode(r: nat): (c: Code)
    ensures Fits(c, 0)
  {
    Then(Lock(StorageMutex(r)), Then(Maybe(Log(r)), Then(EntryCode(r), Maybe(Log(r)))))
  }

  /** Logs when the node is gone, and stops. */
  function AddNodeCode(r: nat): (c: Code)
    ensures Fits(c, 0)
  {
    Then(Lock(StorageMutex(r)), Either(Log(r), EntryCode(r)))
  }

  function UnregisterCode(r: nat): (c: Code)
    ensures Fits(c, 0)
  {
    Maybe(Then(Lock(EntriesMutex(r)), Lock(StorageMutex(r))))
  }

  /** `emitWrite` takes function and text under the node mutex and calls the function after it. */
  function WriteCode(n: nat): (c: Code)
    ensures Fits(c, 0)
  {
    Then(PayloadLog(n), Then(Lock(NodeMutex(n)), Either(User, Log(n))))
  }

  function UnlinkCode(n: nat, r: nat): (c: Code)
    ensures Fits(c, 0)
  {
    Then(Log(n), Then(EntryCode(r), Then(Maybe(User), Then(WriteCode(n), EntryCode(r)))))
  }

  // ----- What threads do -----

  /** The steps a piece of code may take. A log line calls the log function if one is set and the
      level asks for it, after the release of the log mutex. User code does what `UserCode` says. */
  ghost predicate Takes(c: Code, p: seq<LockStep>, depth: nat)
    decreases depth, |p|, 0, c, 1
  {
    match c
    case Skip => p == []
    case Lock(m) => p == [Acquire(m), Release(m)]
    case Log(logger) =>
      var section := [Acquire(LogMutex(logger)), Release(LogMutex(logger))];
      p == section || p == section + [CallLog]
    case User => p != [] && p[0] == CallOut && UserCode(p[1..], depth)
    case Within(m, inner) =>
      |p| >= 2 && p[0] == Acquire(m) && p[|p| - 1] == Release(m) && Takes(inner, p[1..|p| - 1], depth)
    case Seq(_, _) => exists i: nat :: SplitsAt(c, i, p, depth)
    case Branch(one, other) => Takes(one, p, depth) || Takes(other, p, depth)
    case Loop(_) => p == [] || exists i: nat :: SplitsAt(c, i, p, depth)
  }

  /** The first `i` steps are the first part of a sequence, or the first round of a loop. */
  ghost predicate SplitsAt(c: Code, i: nat, p: seq<LockStep>, depth: nat)
    decreases depth, |p|, 0, c, 0
  {
    match c
    case Seq(first, second) => i <= |p| && Takes(first, p[..i], depth) && Takes(second, p[i..], depth)
    case Loop(body) => 0 < i <= |p| && Takes(body, p[..i], depth) && Takes(c, p[i..], depth)
    case _ => false
  }

  ghost predicate Performs(op: Operation, p: seq<LockStep>, depth: nat)
    decreases depth, |p|, 1
  {
    Takes(Body(op), p, depth)
  }

  /** What user code may do: call operations of the library, one after the other. They call user code
      in turn, nested to the given depth. */
  ghost predicate UserCode(p: seq<LockStep>, depth: nat)
    decreases depth, |p|, 3
  {
    p == [] || (depth > 0 && exists op, i: nat :: Calls(op, i, p, depth))
  }

  /** The first `i` steps are a call of the operation, the others are user code again. */
  ghost predicate Calls(op: Operation, i: nat, p: seq<LockStep>, depth: nat)
    requires depth > 0 && p != []
    decreases depth, |p|, 2
  {
    0 < i <= |p| && Performs(op, p[..i], depth - 1) && UserCode(p[i..], depth)
  }

  /** A program: the library steps of one thread, to any depth. */
  ghost predicate IsProgram(p: seq<LockStep>) {
    exists depth: nat :: UserCode(p, depth)
  }

  // ----- All of it is disciplined -----

  /** Every operation may run with no mutex held. */
  lemma OperationsFit(op: Operation)
    ensures Fits(Body(op), 0)
  {
    if op.AddSource? { assert Fits(Within(EntriesMutex(op.r), Branch(Log(op.r), Skip)), 0); }
    if op.GetNode? { assert Fits(Within(EntriesMutex(op.r), Branch(Lock(StorageMutex(op.r)), Skip)), 0); }
    if op.GetNodes? { assert Fits(Within(EntriesMutex(op.r), Loop(Lock(StorageMutex(op.r)))), 0); }
  }

  ghost predicate HeldBelow(held: set<Mutex>, r: nat) {
    forall h | h in held :: Rank(h) < r
  }

  lemma SectionThen(m: Mutex, held: set<Mutex>, rest: seq<LockStep>)
    requires HeldBelow(held, Rank(m)) && Disciplined(rest, held)
    ensures Disciplined([Acquire(m), Release(m)] + rest, held)
  {
    var all := [Acquire(m), Release(m)] + rest;
    assert all[1..][0] == Release(m) && all[1..][1..] == rest;
    assert held + {m} - {m} == held;
    assert Disciplined(all[1..], held + {m});
  }

  lemma LogThen(logger: nat, p: seq<LockStep>, held: set<Mutex>, rest: seq<LockStep>)
    requires HeldBelow(held, TOP_RANK) && Disciplined(rest, held)
    requires Takes(Log(logger), p, 0)
    ensures Disciplined(p + rest, held)
  {
    var m := LogMutex(logger);
    var section := [Acquire(m), Release(m)];
    if p == section {
      SectionThen(m, held, rest);
    } else {
      var logged := [CallLog] + rest;
      assert logged[1..] == rest && Disciplined(logged, held);
      SectionThen(m, held, logged);
      assert p + rest == section + logged;
    }
  }

  /** Main result: whatever path fitting code takes, however deep its user code nests, what follows
      goes on as if the code had not been there. */
  lemma {:induction false} CodeThen(c: Code, r: nat, p: seq<LockStep>, depth: nat, held: set<Mutex>,
                                    rest: seq<LockStep>)
    requires Fits(c, r) && HeldBelow(held, r) && Takes(c, p, depth) && Disciplined(rest, held)
    ensures Disciplined(p + rest, held)
    decreases depth, |p|, 0, c, 1
  {
    match c
    case Skip => assert p + rest == rest;
    case Lock(m) => SectionThen(m, held, rest);
    case Log(logger) => LogThen(logger, p, held, rest);
    case User =>
      assert held == {} && (p + rest)[1..] == p[1..] + rest;
      UserCodeThen(p[1..], depth, rest);
    case Within(_, _) => WithinThen(c, r, p, depth, held, rest);
    case Seq(_, _) =>
      var i: nat :| SplitsAt(c, i, p, depth);
      PartsThen(c, i, r, p, depth, held, rest);
    case Branch(one, other) =>
      if Takes(one, p, depth) {
        CodeThen(one, r, p, depth, held, rest);
      } else {
        CodeThen(other, r, p, depth, held, rest);
      }
    case Loop(_) =>
      if p == [] {
        assert p + rest == rest;
      } else {
        var i: nat :| SplitsAt(c, i, p, depth);
        PartsThen(c, i, r, p, depth, held, rest);
      }
  }

  lemma {:induction false} PartsThen(c: Code, i: nat, r: nat, p: seq<LockStep>, depth: nat, held: set<Mutex>,
                                     rest: seq<LockStep>)
    requires Fits(c, r) && HeldBelow(held, r) && SplitsAt(c, i, p, depth) && Disciplined(rest, held)
    ensures Disciplined(p + rest, held)
    decreases depth, |p|, 0, c, 0
  {
    var head, tail := p[..i], p[i..];
    assert head + (tail + rest) == p + rest;
    var first, second := if c.Seq? then c.first else c.body, if c.Seq? then c.second else c;
    CodeThen(second, r, tail, depth, held, rest);
    CodeThen(first, r, head, depth, held, tail + rest);
  }

  lemma {:induction false} WithinThen(c: Code, r: nat, p: seq<LockStep>, depth: nat, held: set<Mutex>,
                                      rest: seq<LockStep>)
    requires c.Within? && Fits(c, r) && HeldBelow(held, r) && Takes(c, p, depth) && Disciplined(rest, held)
    ensures Disciplined(p + rest, held)
    decreases depth, |p|, 0, c, 0
  {
    var m, inside, last := c.m, p[1..|p| - 1], [Release(c.m)] + rest;
    assert Disciplined(last, held + {m}) by {
      assert held + {m} - {m} == held && last[1..] == rest;
    }
    CodeThen(c.inner, Rank(m) + 1, inside, depth, held + {m}, last);
    assert p[1..] == inside + [Release(m)];
    assert (p + rest)[1..] == inside + last;
  }

  lemma {:induction false} OperationThen(op: Operation, p: seq<LockStep>, depth: nat, rest: seq<LockStep>)
    requires Performs(op, p, depth) && Disciplined(rest, {})
    ensures Disciplined(p + rest, {})
    decreases depth, |p|, 1
  {
    OperationsFit(op);
    CodeThen(Body(op), 0, p, depth, {}, rest);
  }

  lemma {:induction false} UserCodeThen(p: seq<LockStep>, depth: nat, rest: seq<LockStep>)
    requires UserCode(p, depth) && Disciplined(rest, {})
    ensures Disciplined(p + rest, {})
    decreases depth, |p|, 3
  {
    if p == [] {
      assert p + rest == rest;
    } else {
      var op, i: nat :| Calls(op, i, p, depth);
      UserCodeThen(p[i..], depth, rest);
      OperationThen(op, p[..i], depth - 1, p[i..] + rest);
      assert p[..i] + (p[i..] + rest) == p + rest;
    }
  }

  /** Main result: every path of every operation takes entries mutexes before storage and log mutexes
      and never the reverse, and runs user code with no mutex held, also where that user code calls
      the library again. */
  lemma OperationsAreDisciplined(op: Operation, p: seq<LockStep>, depth: nat)
    requires Performs(op, p, depth)
    ensures Disciplined(p, {})
  {
    OperationThen(op, p, depth, []);
    assert p + [] == p;
  }

  /** So is everything a thread can do with the library. */
  lemma ProgramsAreDisciplined(p: seq<LockStep>)
    requires IsProgram(p)
    ensures Disciplined(p, {})
  {
    var depth: nat :| UserCode(p, depth);
    UserCodeThen(p, depth, []);
    assert p + [] == p;
  }

  // ----- Each table is guarded -----

  /** The code takes the mutex on every path. */
  predicate Always(c: Code, m: Mutex)
    decreases c
  {
    match c
    case Lock(own) => own == m
    case Log(logger) => LogMutex(logger) == m
    case Within(own, inner) => own == m || Always(inner, m)
    case Seq(first, second) => Always(first, m) || Always(second, m)
    case Branch(one, other) => Always(one, m) && Always(other, m)
    case _ => false
  }

  lemma {:induction false} AlwaysTaken(c: Code, m: Mutex, p: seq<LockStep>, depth: nat)
    requires Always(c, m) && Takes(c, p, depth)
    ensures Acquire(m) in p
    decreases c
  {
    match c
    case Lock(_) => assert p[0] == Acquire(m);
    case Log(_) => assert p[0] == Acquire(m);
    case Within(own, inner) =>
      if own == m { assert p[0] == Acquire(m); } else { AlwaysTaken(inner, m, p[1..|p| - 1], depth); }
    case Seq(first, second) =>
      var i: nat :| SplitsAt(c, i, p, depth);
      if Always(first, m) { AlwaysTaken(first, m, p[..i], depth); } else { AlwaysTaken(second, m, p[i..], depth); }
    case Branch(one, other) =>
      if Takes(one, p, depth) { AlwaysTaken(one, m, p, depth); } else { AlwaysTaken(other, m, p, depth); }
  }

  predicate LooksAtEntries(op: Operation) {
    op.SetNode? || op.UnsetNode? || op.RemoveSink? || op.RemoveSource? || op.GetSinkOrSource? || op.GetObjectIds?
    || op.GetNode? || op.GetNodes? || op.RemoveNodeFromSource? || op.LinkRemote? || op.UnlinkRemote?
    || op.DestroyClientNode? || op.HandleSinkMessage? || op.HandleLink? || op.HandleUnlink? || op.HandleInvoke?
    || op.HandleSetProperty?
  }

  predicate LooksAtNode(op: Operation) {
    op.OnWrite? || op.SetMessageFormat? || op.SetMaxMessageSize? || op.EmitWrite? || op.LinkRemote?
    || op.UnlinkRemote? || op.InvokeRemote? || op.SetRemoteProperty? || op.HandleMalformed? || op.HandleUnexpected?
    || op.HandleSinkMessage? || op.HandleInvokeReply? || op.HandleError? || op.HandleLink? || op.HandleUnlink?
    || op.HandleInvoke? || op.HandleSetProperty?
  }

  lemma EntriesOperationsLock(op: Operation)
    requires LooksAtEntries(op)
    ensures Always(Body(op), EntriesMutex(op.r))
  {
  }

  lemma NodeOperationsLock(op: Operation)
    requires LooksAtNode(op)
    ensures Always(Body(op), NodeMutex(op.n))
  {
  }

  /** Main result: on every path, operations on entries take the entries mutex, those that look up a node
      the storage mutex, those on pending calls theirs, and those of a node the node mutex. */
  lemma TablesAreGuarded(op: Operation, p: seq<LockStep>, depth: nat)
    requires Performs(op, p, depth)
    ensures LooksAtEntries(op) ==> Acquire(EntriesMutex(op.r)) in p
    ensures op.SetNode? || op.AddNodeForSource? || op.LinkRemote? ==> Acquire(StorageMutex(op.r)) in p
    ensures op.InvokeRemote? || op.HandleInvokeReply? ==> Acquire(InvokesMutex(op.n)) in p
    ensures LooksAtNode(op) ==> Acquire(NodeMutex(op.n)) in p
    ensures op.OnLog? || op.SetLogLevel? ==> Acquire(LogMutex(op.logger)) in p
  {
    if LooksAtEntries(op) { EntriesOperationsLock(op); AlwaysTaken(Body(op), EntriesMutex(op.r), p, depth); }
    if op.SetNode? || op.AddNodeForSource? || op.LinkRemote? { AlwaysTaken(Body(op), StorageMutex(op.r), p, depth); }
    if op.InvokeRemote? || op.HandleInvokeReply? { AlwaysTaken(Body(op), InvokesMutex(op.n), p, depth); }
    if LooksAtNode(op) { NodeOperationsLock(op); AlwaysTaken(Body(op), NodeMutex(op.n), p, depth); }
    if op.OnLog? || op.SetLogLevel? { AlwaysTaken(Body(op), LogMutex(op.logger), p, depth); }
  }

  // ----- Threads -----

  /** A thread: the mutexes it holds and the steps it still has to take. */
  datatype Thread = Thread(held: set<Mutex>, rest: seq<LockStep>)

  ghost predicate CanStep(ts: seq<Thread>, i: nat)
    requires i < |ts|
  {
    ts[i].rest != [] &&
    (ts[i].rest[0].Acquire? ==> forall j | 0 <= j < |ts| :: ts[i].rest[0].m !in ts[j].held)
  }

  ghost function StepOf(t: Thread): Thread
    requires t.rest != []
  {
    match t.rest[0]
    case Acquire(m) => Thread(t.held + {m}, t.rest[1..])
    case Release(m) => Thread(t.held - {m}, t.rest[1..])
    case CallOut => Thread(t.held, t.rest[1..])
    case CallLog => Thread(t.held, t.rest[1..])
  }

  ghost predicate AllDisciplined(ts: seq<Thread>) {
    && (forall i | 0 <= i < |ts| :: Disciplined(ts[i].rest, ts[i].held))
    && (forall i, j | 0 <= i < j < |ts| :: ts[i].held !! ts[j].held)
  }

  /** A run of any number of threads, each with a program of its own: some thread that can step does. */
  ghost predicate IsRun(states: seq<seq<Thread>>) {
    && states != []
    && (forall i | 0 <= i < |states[0]| :: states[0][i].held == {} && IsProgram(states[0][i].rest))
    && (forall k | 0 < k < |states| :: IsStep(states[k - 1], states[k]))
  }

  ghost predicate IsStep(ts: seq<Thread>, ts': seq<Thread>) {
    exists i: nat :: i < |ts| && CanStep(ts, i) && ts' == ts[i := StepOf(ts[i])]
  }

  lemma StepKeepsDiscipline(ts: seq<Thread>, i: nat)
    requires AllDisciplined(ts) && i < |ts| && CanStep(ts, i)
    ensures AllDisciplined(ts[i := StepOf(ts[i])])
  {
  }

  lemma {:induction false} RunKeepsDiscipline(states: seq<seq<Thread>>, k: nat)
    requires IsRun(states) && k < |states|
    ensures AllDisciplined(states[k])
  {
    if k == 0 {
      forall i | 0 <= i < |states[0]| ensures Disciplined(states[0][i].rest, {}) {
        ProgramsAreDisciplined(states[0][i].rest);
      }
    } else {
      RunKeepsDiscipline(states, k - 1);
      assert IsStep(states[k - 1], states[k]);
      var i: nat :| i < |states[k - 1]| && CanStep(states[k - 1], i)
                    && states[k] == states[k - 1][i := StepOf(states[k - 1][i])];
      StepKeepsDiscipline(states[k - 1], i);
    }
  }

  /** Following who holds the mutex a blocked thread wants leads to higher and higher ranks, so it
      ends at a thread that can step. */
  lemma {:induction false} FollowTheHolder(ts: seq<Thread>, i: nat) returns (j: nat)
    requires AllDisciplined(ts) && i < |ts| && ts[i].rest != []
    ensures j < |ts| && CanStep(ts, j)
    decreases if ts[i].rest[0].Acquire? then TOP_RANK - Rank(ts[i].rest[0].m) else 0
  {
    if CanStep(ts, i) {
      return i;
    }
    var m := ts[i].rest[0].m;
    var holder: nat :| holder < |ts| && m in ts[holder].held;
    assert Disciplined(ts[holder].rest, ts[holder].held) && ts[holder].rest != [];
    if CanStep(ts, holder) {
      return holder;
    }
    j := FollowTheHolder(ts, holder);
  }

  /** Main result: threads that run the library never get stuck, however many there are and whatever
      they call. While any thread has work left, some thread can go on. */
  lemma NoRunGetsStuck(states: seq<seq<Thread>>, k: nat, i: nat) returns (j: nat)
    requires IsRun(states) && k < |states| && i < |states[k]| && states[k][i].rest != []
    ensures j < |states[k]| && CanStep(states[k], j)
  {
    RunKeepsDiscipline(states, k);
    j := FollowTheHolder(states[k], i);
  }
}
