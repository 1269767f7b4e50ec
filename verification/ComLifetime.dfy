/** Lifetimes of the module's COM objects: text services and class factories, their 32-bit reference
    counts, the module's live-object and lock counters, and the references its clients hold. */
module ComLifetime {
  import opened Wrappers
  import opened Numbers

  datatype Kind = Tip | Factory

  datatype Header = Primary | Key | ThreadMgr | Composition | Display | TextEdit | FactoryTable

  datatype Iid =
    | IUnknown | ITextInputProcessor | ITextInputProcessorEx | IKeyEventSink | IThreadMgrEventSink
    | ICompositionSink | IDisplayAttributeProvider | ITextEditSink | IClassFactory | Unsupported

  datatype Hresult = Ok | NullPointer | NoInterface | NoAggregation | ClassNotAvailable

  /** An interface pointer: an object and one of the headers it exposes. */
  datatype Pointer = Pointer(owner: nat, header: Header)

  datatype Object = Object(kind: Kind, refs: nat)

  datatype Server = Server(objects: map<nat, Object>, next: nat, live: int, locks: nat, freed: seq<nat>)

  const UNLOADED := Server(map[], 0, 0, 0, [])

  function Interface(kind: Kind, iid: Iid): Option<Header> {
    match kind
    case Tip =>
      (match iid
       case IUnknown => Some(Primary)
       case ITextInputProcessor => Some(Primary)
       case ITextInputProcessorEx => Some(Primary)
       case IKeyEventSink => Some(Key)
       case IThreadMgrEventSink => Some(ThreadMgr)
       case ICompositionSink => Some(Composition)
       case IDisplayAttributeProvider => Some(Display)
       case ITextEditSink => Some(TextEdit)
       case _ => None)
    case Factory =>
      (match iid
       case IUnknown => Some(FactoryTable)
       case IClassFactory => Some(FactoryTable)
       case _ => None)
  }

  predicate Exposes(kind: Kind, header: Header) { kind.Factory? <==> header.FactoryTable? }

  // ---------------------------------------------------------------- the server

  function New(s: Server, kind: Kind): Server {
    s.(objects := s.objects[s.next := Object(kind, 1)], next := s.next + 1, live := s.live + 1)
  }

  function AddRef(s: Server, id: nat): Server
    requires id in s.objects
  {
    s.(objects := s.objects[id := s.objects[id].(refs := (s.objects[id].refs + 1) % U32_MODULUS)])
  }

  function Release(s: Server, id: nat): Server
    requires id in s.objects
  {
    if s.objects[id].refs == 1 then s.(objects := s.objects - {id}, live := s.live - 1, freed := s.freed + [id])
    else s.(objects := s.objects[id := s.objects[id].(refs := (s.objects[id].refs + U32_MODULUS - 1) % U32_MODULUS)])
  }

  datatype Answer = Answer(result: Hresult, out: Option<Pointer>)

  /** What a client passes for an interface id and an out-pointer; either may be null. */
  datatype Request = Request(iid: Option<Iid>, outIsNull: bool)

  function Query(s: Server, id: nat, request: Request): (Server, Answer)
    requires id in s.objects
  {
    if request.outIsNull || request.iid.None? then (s, Answer(NullPointer, None))
    else
      match Interface(s.objects[id].kind, request.iid.value)
      case Some(header) => (AddRef(s, id), Answer(Ok, Some(Pointer(id, header))))
      case None => (s, Answer(NoInterface, None))
  }

  /** A new object, a query for the interface asked for, and the release of the creator's reference. */
  function Create(s: Server, kind: Kind, request: Request): (Server, Answer) {
    if request.outIsNull || request.iid.None? then (s, Answer(NullPointer, None))
    else
      var asked := Query(New(s, kind), s.next, request);
      (Release(asked.0, s.next), asked.1)
  }

  function CanUnloadNow(s: Server): bool { s.live == 0 && s.locks == 0 }

  // ---------------------------------------------------------------- clients

  datatype Event =
    | GetClassObject(known: bool, request: Request)
    | CreateInstance(factory: nat, aggregated: bool, request: Request)
    | QueryInterface(via: Pointer, request: Request)
    | AddRefVia(via: Pointer)
    | ReleaseVia(via: Pointer)
    | LockServer(factory: nat, lock: bool)

  /** A server and the references its clients hold, by object. */
  datatype World = World(server: Server, held: multiset<nat>)

  predicate Holds(w: World, p: Pointer) {
    p.owner in w.held && p.owner in w.server.objects && Exposes(w.server.objects[p.owner].kind, p.header)
  }

  /** Clients only use pointers to objects they hold a reference to, through any of their headers. */
  predicate Enabled(w: World, e: Event) {
    match e
    case GetClassObject(_, _) => true
    case CreateInstance(factory, _, _) => Holds(w, Pointer(factory, FactoryTable))
    case QueryInterface(via, _) => Holds(w, via)
    case AddRefVia(via) => Holds(w, via)
    case ReleaseVia(via) => Holds(w, via)
    case LockServer(factory, _) => Holds(w, Pointer(factory, FactoryTable))
  }

  function Serve(s: Server, e: Event): (Server, Answer)
    requires e.QueryInterface? || e.AddRefVia? || e.ReleaseVia? ==> e.via.owner in s.objects
  {
    match e
    case GetClassObject(known, request) =>
      if !request.outIsNull && request.iid.Some? && !known then (s, Answer(ClassNotAvailable, None))
      else Create(s, Factory, request)
    case CreateInstance(_, aggregated, request) =>
      if !request.outIsNull && request.iid.Some? && aggregated then (s, Answer(NoAggregation, None))
      else Create(s, Tip, request)
    case QueryInterface(via, request) => Query(s, via.owner, request)
    case AddRefVia(via) => (AddRef(s, via.owner), Answer(Ok, Some(via)))
    case ReleaseVia(via) => (Release(s, via.owner), Answer(Ok, None))
    case LockServer(_, lock) =>
      (s.(locks := if lock then s.locks + 1 else if s.locks == 0 then 0 else s.locks - 1), Answer(Ok, None))
  }

  /** Every pointer handed out is a reference the client now holds; a release gives one back. */
  function Step(w: World, e: Event): World
    requires Enabled(w, e)
  {
    var r := Serve(w.server, e);
    World(r.0,
          if e.ReleaseVia? then w.held - multiset{e.via.owner}
          else if r.1.out.Some? then w.held + multiset{r.1.out.value.owner}
          else w.held)
  }

  predicate Possible(w: World, events: seq<Event>)
    decreases |events|
  {
    events == [] || (Enabled(w, events[0]) && Possible(Step(w, events[0]), events[1..]))
  }

  function Run(w: World, events: seq<Event>): World
    requires Possible(w, events)
    decreases |events|
  {
    if events == [] then w else Run(Step(w, events[0]), events[1..])
  }

  // ---------------------------------------------------------------- accounting

  /** The objects there are, are those a client holds, with that many references; the live counter
      counts them; every object made so far is either there or was freed, once. */
  ghost predicate Accounts(w: World) {
    var s := w.server;
    && s.objects.Keys == (set id | id in w.held)
    && (forall id :: id in s.objects ==> s.objects[id].refs == w.held[id])
    && s.live == |s.objects|
    && (forall id :: id in s.objects || id in s.freed ==> id < s.next)
    && (forall id :: 0 <= id < s.next ==> (id in s.objects <==> id !in s.freed))
    && NoRepeats(s.freed)
  }

  ghost predicate NoRepeats(log: seq<nat>) { forall i, j :: 0 <= i < j < |log| ==> log[i] != log[j] }

  lemma AddRefAccounts(w: World, id: nat)
    requires Accounts(w) && id in w.held && w.held[id] + 1 < U32_MODULUS
    ensures Accounts(World(AddRef(w.server, id), w.held + multiset{id}))
  {
    assert AddRef(w.server, id).objects.Keys == w.server.objects.Keys;
    assert |AddRef(w.server, id).objects| == |AddRef(w.server, id).objects.Keys|;
  }

  lemma LastReleaseAccounts(w: World, id: nat)
    requires Accounts(w) && w.held[id] == 1
    ensures Accounts(World(Release(w.server, id), w.held - multiset{id}))
    ensures Release(w.server, id).objects.Keys == w.server.objects.Keys - {id}
    ensures Release(w.server, id).freed == w.server.freed + [id]
  {
    var s := Release(w.server, id);
    assert s.objects.Keys == w.server.objects.Keys - {id};
    assert |s.objects| == |s.objects.Keys| && |w.server.objects| == |w.server.objects.Keys|;
  }

  lemma EarlierReleaseAccounts(w: World, id: nat)
    requires Accounts(w) && 1 < w.held[id] < U32_MODULUS
    ensures Accounts(World(Release(w.server, id), w.held - multiset{id}))
    ensures Release(w.server, id).objects.Keys == w.server.objects.Keys
    ensures Release(w.server, id).freed == w.server.freed
  {
    var s := Release(w.server, id);
    assert s.objects.Keys == w.server.objects.Keys;
    assert |s.objects| == |s.objects.Keys| && |w.server.objects| == |w.server.objects.Keys|;
  }

  /** A release frees the object exactly when it gives back the last reference. */
  lemma ReleaseAccounts(w: World, id: nat)
    requires Accounts(w) && id in w.held && w.held[id] < U32_MODULUS
    ensures var out := World(Release(w.server, id), w.held - multiset{id});
            && Accounts(out)
            && (id !in out.server.objects <==> w.held[id] == 1)
            && out.server.freed == if w.held[id] == 1 then w.server.freed + [id] else w.server.freed
  {
    if w.held[id] == 1 {
      LastReleaseAccounts(w, id);
    } else {
      EarlierReleaseAccounts(w, id);
    }
  }

  lemma NewAccounts(w: World, kind: Kind)
    requires Accounts(w)
    ensures w.server.next !in w.held
    ensures Accounts(World(New(w.server, kind), w.held + multiset{w.server.next}))
  {
    var s := New(w.server, kind);
    assert w.server.next !in w.server.objects;
    assert s.objects.Keys == w.server.objects.Keys + {w.server.next};
    assert |s.objects| == |s.objects.Keys| && |w.server.objects| == |w.server.objects.Keys|;
  }

  lemma CreateSupported(w: World, kind: Kind, request: Request)
    requires Accounts(w) && !request.outIsNull && request.iid.Some? && Interface(kind, request.iid.value).Some?
    ensures var made := Create(w.server, kind, request);
            && made.0.objects == w.server.objects[w.server.next := Object(kind, 1)]
            && made.0.freed == w.server.freed
            && Accounts(World(made.0, w.held + multiset{w.server.next}))
  {
    var id := w.server.next;
    NewAccounts(w, kind);
    var once := World(New(w.server, kind), w.held + multiset{id});
    AddRefAccounts(once, id);
    var twice := World(AddRef(once.server, id), once.held + multiset{id});
    ReleaseAccounts(twice, id);
    assert twice.held - multiset{id} == once.held;
    assert Release(twice.server, id).objects == w.server.objects[id := Object(kind, 1)];
  }

  lemma CreateUnsupported(w: World, kind: Kind, request: Request)
    requires Accounts(w) && !request.outIsNull && request.iid.Some? && Interface(kind, request.iid.value).None?
    ensures var made := Create(w.server, kind, request);
            made.0.objects == w.server.objects && made.0.live == w.server.live && Accounts(World(made.0, w.held))
  {
    var id := w.server.next;
    NewAccounts(w, kind);
    var once := World(New(w.server, kind), w.held + multiset{id});
    ReleaseAccounts(once, id);
    assert once.held - multiset{id} == w.held;
    assert Release(once.server, id).objects == w.server.objects;
  }

  /** Creation hands over exactly one reference to a new object, or leaves no object behind. */
  lemma CreateAccounts(w: World, kind: Kind, request: Request)
    requires Accounts(w)
    ensures var made := Create(w.server, kind, request);
            && (made.1.out.Some? <==> made.1.result == Ok)
            && (made.1.out.Some? ==>
                  && made.1.out.value.owner == w.server.next
                  && Exposes(kind, made.1.out.value.header)
                  && made.0.objects == w.server.objects[w.server.next := Object(kind, 1)]
                  && Accounts(World(made.0, w.held + multiset{w.server.next})))
            && (made.1.out.None? ==>
                  made.0.objects == w.server.objects && made.0.live == w.server.live && Accounts(World(made.0, w.held)))
  {
    if !request.outIsNull && request.iid.Some? {
      if Interface(kind, request.iid.value).Some? {
        CreateSupported(w, kind, request);
      } else {
        CreateUnsupported(w, kind, request);
      }
    }
  }

  lemma QueryAccounts(w: World, id: nat, request: Request)
    requires Accounts(w) && id in w.held && |w.held| + 1 < U32_MODULUS
    ensures var r := Query(w.server, id, request);
            && (r.1.out.Some? ==> r.1.out.value.owner == id)
            && Accounts(World(r.0, if r.1.out.Some? then w.held + multiset{id} else w.held))
  {
    HeldIsBounded(w, id);
    AddRefAccounts(w, id);
  }

  lemma StepAccounts(w: World, e: Event)
    requires Accounts(w) && Enabled(w, e) && |w.held| + 1 < U32_MODULUS
    ensures Accounts(Step(w, e)) && |Step(w, e).held| <= |w.held| + 1
  {
    match e {
      case GetClassObject(known, request) => CreateAccounts(w, Factory, request);
      case CreateInstance(factory, aggregated, request) => CreateAccounts(w, Tip, request);
      case QueryInterface(via, request) => QueryAccounts(w, via.owner, request);
      case AddRefVia(via) =>
        HeldIsBounded(w, via.owner);
        AddRefAccounts(w, via.owner);
      case ReleaseVia(via) =>
        HeldIsBounded(w, via.owner);
        ReleaseAccounts(w, via.owner);
      case LockServer(factory, lock) =>
    }
  }

  lemma HeldIsBounded(w: World, id: nat)
    ensures w.held[id] <= |w.held|
  {
    var rest := w.held[id := 0];
    assert w.held == rest + multiset{}[id := w.held[id]];
    assert |multiset{}[id := w.held[id]]| == w.held[id];
  }

  /** Over every run of a client that only uses what it holds: each object is freed at most once, it is
      there exactly as long as someone holds it, and the live counter counts those there are. */
  lemma {:induction false} RunAccounts(w: World, events: seq<Event>)
    requires Accounts(w) && Possible(w, events) && |w.held| + |events| < U32_MODULUS
    ensures Accounts(Run(w, events))
    decreases |events|
  {
    if events != [] {
      StepAccounts(w, events[0]);
      RunAccounts(Step(w, events[0]), events[1..]);
    }
  }

  /** Unloading is granted exactly when no client holds a reference and no lock is held. */
  lemma UnloadsExactlyWhenUnused(events: seq<Event>)
    requires Possible(World(UNLOADED, multiset{}), events) && |events| < U32_MODULUS
    ensures var out := Run(World(UNLOADED, multiset{}), events);
            CanUnloadNow(out.server) <==> out.held == multiset{} && out.server.locks == 0
  {
    var start := World(UNLOADED, multiset{});
    assert Accounts(start);
    RunAccounts(start, events);
    var out := Run(start, events);
    assert |out.server.objects| == |out.server.objects.Keys|;
    if out.held == multiset{} {
      assert out.server.objects.Keys == {};
    } else {
      var id :| id in out.held;
      assert id in out.server.objects.Keys;
    }
  }

  /** COM identity: asked for `IUnknown`, an object answers with the same pointer through every header. */
  lemma OneIdentity(s: Server, a: Pointer, b: Pointer)
    requires a.owner in s.objects && b.owner in s.objects
    ensures Query(s, a.owner, Request(Some(IUnknown), false)).1 == Query(s, b.owner, Request(Some(IUnknown), false)).1
       <==> a.owner == b.owner
  {
  }

  /** Each interface is answered with its own table: on a text service `IUnknown` and the two text input
      processors share the primary one, the five sinks and providers have one each, and a class factory has
      a single one; anything else is refused. A supported query costs one reference, a refused one none. */
  lemma EachInterfaceHasItsTable(s: Server, id: nat, iid: Iid)
    requires id in s.objects
    ensures var (after, answer) := Query(s, id, Request(Some(iid), false));
            var header := match s.objects[id].kind
              case Tip =>
                if iid in {IUnknown, ITextInputProcessor, ITextInputProcessorEx} then Some(Primary)
                else if iid == IKeyEventSink then Some(Key)
                else if iid == IThreadMgrEventSink then Some(ThreadMgr)
                else if iid == ICompositionSink then Some(Composition)
                else if iid == IDisplayAttributeProvider then Some(Display)
                else if iid == ITextEditSink then Some(TextEdit)
                else None
              case Factory => if iid in {IUnknown, IClassFactory} then Some(FactoryTable) else None;
            if header.Some? then answer == Answer(Ok, Some(Pointer(id, header.value))) && after == AddRef(s, id)
            else answer == Answer(NoInterface, None) && after == s
  {
  }

  /** Which error a creating call reports: a null argument before anything else, then what is wrong with the
      call itself, and only then an interface that the new object does not have. */
  lemma ErrorsInOrder(s: Server, e: Event)
    requires e.GetClassObject? || e.CreateInstance?
    ensures var result := Serve(s, e).1.result;
            var missing := e.request.outIsNull || e.request.iid.None?;
            var wrong := if e.GetClassObject? then !e.known else e.aggregated;
            && (result == NullPointer <==> missing)
            && (result == ClassNotAvailable <==> !missing && wrong && e.GetClassObject?)
            && (result == NoAggregation <==> !missing && wrong && e.CreateInstance?)
            && (result == Ok <==>
                  (!missing && !wrong
                   && (if e.GetClassObject? then e.request.iid.value in {IUnknown, IClassFactory}
                       else e.request.iid.value !in {IClassFactory, Unsupported})))
            && (result != Ok ==> Serve(s, e).1.out == None)
  {
  }

  // ---------------------------------------------------------------- locks

  function Balance(events: seq<Event>): int {
    if events == [] then 0
    else (if events[0].LockServer? then if events[0].lock then 1 else -1 else 0) + Balance(events[1..])
  }

  /** Unlocks at a lock count of zero: they are not carried over. */
  function Lost(locks: nat, events: seq<Event>): nat
    decreases |events|
  {
    if events == [] then 0
    else if !events[0].LockServer? then Lost(locks, events[1..])
    else if events[0].lock then Lost(locks + 1, events[1..])
    else if locks == 0 then 1 + Lost(0, events[1..])
    else Lost(locks - 1, events[1..])
  }

  lemma StepLocks(w: World, e: Event)
    requires Enabled(w, e)
    ensures Step(w, e).server.locks
         == if !e.LockServer? then w.server.locks
            else if e.lock then w.server.locks + 1
            else if w.server.locks == 0 then 0 else w.server.locks - 1
  {
  }

  /** The lock count is the balance of locks and unlocks, save for unlocks nothing was locked for. */
  lemma {:induction false} LocksBalance(w: World, events: seq<Event>)
    requires Possible(w, events)
    ensures Run(w, events).server.locks == w.server.locks + Balance(events) + Lost(w.server.locks, events)
    decreases |events|
  {
    if events != [] {
      var after := Step(w, events[0]);
      StepLocks(w, events[0]);
      LocksBalance(after, events[1..]);
      assert Run(w, events) == Run(after, events[1..]);
    }
  }

  // ---------------------------------------------------------------- the counters, step by step

  class ComModule {
    var objects: map<nat, Object>
    var next: nat
    var live: int
    var locks: nat
    var freed: seq<nat>

    constructor ()
      ensures Model() == UNLOADED
    {
      objects, next, live, locks, freed := map[], 0, 0, 0, [];
    }

    function Model(): Server
      reads this
    {
      Server(objects, next, live, locks, freed)
    }

    method Allocate(kind: Kind) returns (id: nat)
      modifies this
      ensures Model() == New(old(Model()), kind) && id == old(next)
    {
      live := live + 1;
      id := next;
      next := next + 1;
      objects := objects[id := Object(kind, 1)];
    }

    method AddRefOwner(id: nat) returns (count: nat)
      requires id in objects
      modifies this
      ensures Model() == AddRef(old(Model()), id) && count == objects[id].refs
    {
      count := (objects[id].refs + 1) % U32_MODULUS;
      objects := objects[id := objects[id].(refs := count)];
    }

    method ReleaseOwner(id: nat) returns (count: nat)
      requires id in objects
      modifies this
      ensures Model() == Release(old(Model()), id)
      ensures count == 0 <==> id !in objects
    {
      var previous := objects[id].refs;
      var left := (previous + U32_MODULUS - 1) % U32_MODULUS;
      objects := objects[id := objects[id].(refs := left)];
      if previous == 1 {
        live := live - 1;
        freed := freed + [id];
        objects := objects - {id};
        return 0;
      }
      count := if previous == 0 then U32_MODULUS - 1 else previous - 1;
    }

    method QueryOwner(id: nat, request: Request) returns (answer: Answer)
      requires id in objects
      modifies this
      ensures Model() == Query(old(Model()), id, request).0
      ensures answer == Query(old(Model()), id, request).1
    {
      if request.outIsNull {
        return Answer(NullPointer, None);
      }
      if request.iid.None? {
        return Answer(NullPointer, None);
      }
      var header := Interface(objects[id].kind, request.iid.value);
      if header.None? {
        return Answer(NoInterface, None);
      }
      var _ := AddRefOwner(id);
      answer := Answer(Ok, Some(Pointer(id, header.value)));
    }

    method CreateInstance(aggregated: bool, request: Request) returns (answer: Answer)
      modifies this
      ensures Model() == Serve(old(Model()), Event.CreateInstance(0, aggregated, request)).0
      ensures answer == Serve(old(Model()), Event.CreateInstance(0, aggregated, request)).1
    {
      if request.outIsNull {
        return Answer(NullPointer, None);
      }
      if request.iid.None? {
        return Answer(NullPointer, None);
      }
      if aggregated {
        return Answer(NoAggregation, None);
      }
      var owner := Allocate(Tip);
      answer := QueryOwner(owner, request);
      var _ := ReleaseOwner(owner);
    }

    method GetClassObject(known: bool, request: Request) returns (answer: Answer)
      modifies this
      ensures Model() == Serve(old(Model()), Event.GetClassObject(known, request)).0
      ensures answer == Serve(old(Model()), Event.GetClassObject(known, request)).1
    {
      if request.outIsNull {
        return Answer(NullPointer, None);
      }
      if request.iid.None? {
        return Answer(NullPointer, None);
      }
      if !known {
        return Answer(ClassNotAvailable, None);
      }
      var factory := Allocate(Factory);
      answer := QueryOwner(factory, request);
      var _ := ReleaseOwner(factory);
    }

    method LockServer(lock: bool)
      modifies this
      ensures Model() == Serve(old(Model()), Event.LockServer(0, lock)).0
    {
      if lock {
        locks := locks + 1;
      } else if locks > 0 {
        locks := locks - 1;
      }
    }

    predicate CanUnload()
      reads this
      ensures CanUnload() <==> CanUnloadNow(Model())
    {
      live == 0 && locks == 0
    }
  }
}
