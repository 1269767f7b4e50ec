/** Activation and deactivation of the text service, with every call into the host allowed to re-enter
    it.

    A call into the service is a program that stops at each outside call. While the host answers one,
    it may call the service again; those calls run to their own stops on top of the waiting one. So the
    machine below is a stack of waiting programs, together with the activation state, the host's ledgers
    of what is advised, and the cells of the service. A run is any sequence of host events: replies to
    the topmost waiting call, and new calls at any moment.

    An advise or an unadvise takes effect at the host in the middle of the outside call: there is a stop
    before it and one after it. `Machine` and its functions are the specification; `TextService` is the
    object that runs the programs in place, on an `Apartment.ApartmentState`. */
module Activation {
  import opened Wrappers
  import opened Numbers
  import opened Apartment
  import opened Publication

  datatype HostEvent =
    | Reply(ok: bool, value: nat)
    | CallActivate(client: nat)
    | CallDeactivate
    | CallSetFocus(document: Option<nat>)
    | CallUninitDocument(document: Option<nat>)
    | CallChangeContext(context: Option<nat>, popped: bool)

  datatype Hresult = Ok | AlreadyExists | Unexpected | NoInterface | HostFailure

  // ---------------------------------------------------------------- programs

  /** The two subscriptions that follow the focused context. */
  datatype SlotName = TextEdit | TextLayout

  /** An activation in progress, and what it has by the time both sinks are advised. */
  datatype Attempt = Attempt(token: U64, client: nat)
  datatype Holding = Holding(attempt: Attempt, keystrokeMgr: nat, source: nat, cookie: nat)

  /** What a program does between two stops. */
  datatype Action =
    | RecordKey(client: nat)
    | ForgetKey(client: nat)
    | RecordSink(cookie: nat)
    | ForgetSink(cookie: nat)
    | RecordSubscription(name: SlotName, cookie: nat)
    | ForgetSubscription(name: SlotName, cookie: nat)
    | KeepSubscription(name: SlotName, cookie: nat, context: nat)
    | ReturnSlot(name: SlotName)
    | AbortToken(token: U64)
    | StoreCells(token: U64)
    | ClearCells

  /** An outside call whose answer decides how to go on. */
  datatype Question =
    | Manager(a: Attempt)
    | Keystroke(a: Attempt)
    | Source(a: Attempt, keystrokeMgr: nat)
    | AdviseKey(a: Attempt, keystrokeMgr: nat, source: nat)
    | AdviseThread(a: Attempt, keystrokeMgr: nat, source: nat)
    | FocusedDocument(h: Holding)
    | DocumentIdentity(h: Holding, document: Option<nat>)
    | TopContext(h: Holding, document: Option<nat>, identity: Option<nat>)
    | CreateWindow(h: Holding, focus: Focus)
    | FocusIdentity(ticket: U64, document: Option<nat>)
    | FocusTop(ticket: U64, document: Option<nat>, identity: Option<nat>)
    | UninitIdentity(ticket: U64, document: Option<nat>)
    | ChangedIdentity(ticket: U64, context: Option<nat>, popped: bool)
    | ContextBelow(ticket: U64, context: Option<nat>, identity: Option<nat>)

  datatype Program =
    | Done(result: Hresult)
    | Do(action: Action, next: Program)
    /** An outside call whose answer does not matter. */
    | Pause(next: Program)
    /** One that has an effect at the host before it returns. */
    | Unadvise(action: Action, next: Program)
    | Ask(question: Question)
    /** The two questions of a subscription: its source, and its cookie. */
    | AskSource(name: SlotName, context: nat, next: Program)
    | AskCookie(name: SlotName, context: nat, next: Program)
    /** Is the token's activation still the one in progress? */
    | IfCurrent(token: U64, yes: Program, no: Program)
    /** `complete_activation`, and what follows if the state takes everything over or does not. */
    | CompleteWith(h: Holding, threadMgr: nat, focus: Focus, yes: Program, no: Program)
    /** `begin_deactivation`, and everything after it. */
    | End
    /** `replace_text_edit_subscription` or `replace_text_layout_subscription`; in the focus callbacks the
        latter subscribes only while there is a window. */
    | Replace(name: SlotName, wanted: Option<nat>, needsWindow: bool, next: Program)
    | TryFocus(ticket: U64, focus: Focus)
    | TryClear(ticket: U64, identity: Option<nat>)
    | TryContext(ticket: U64, identity: Option<nat>, offered: Option<nat>)

  /** `rollback_before_drop`: the thread sink first, then the key sink. */
  function RollBack(h: Holding, next: Program): Program {
    Unadvise(ForgetSink(h.cookie), Unadvise(ForgetKey(h.attempt.client), next))
  }

  function Follow(wanted: Option<nat>, needsWindow: bool, next: Program): Program {
    Replace(TextEdit, wanted, false, Replace(TextLayout, wanted, needsWindow, next))
  }

  /** After publication: the subscriptions, the language bar attached, the item it replaces dropped, and
      then window, channel and I/O thread stored. */
  function AfterPublication(token: U64, context: Option<nat>): Program {
    Follow(context, false, Pause(Pause(Do(StoreCells(token), Done(Ok)))))
  }

  /** The focus an activation starts with, from the answers to its three questions. */
  function FirstFocus(document: Option<nat>, identity: Option<nat>, context: Option<nat>): Focus {
    if document.Some? then Focus(document, identity, context) else NO_FOCUS
  }

  function WhenSome(wanted: Option<nat>, answer: Option<nat>): Option<nat> {
    if wanted.Some? then answer else None
  }

  /** How a program goes on from an answer; `None` is a failure. */
  function Resume(q: Question, answer: Option<nat>): Program {
    match q
    case Manager(a) => IfCurrent(a.token, Ask(Keystroke(a)), Done(Unexpected))
    case Keystroke(a) =>
      (match answer
       case None => Do(AbortToken(a.token), Done(HostFailure))
       case Some(keystrokeMgr) => IfCurrent(a.token, Ask(Source(a, keystrokeMgr)), Done(Unexpected)))
    case Source(a, keystrokeMgr) =>
      (match answer
       case None => Do(AbortToken(a.token), Done(HostFailure))
       case Some(source) => IfCurrent(a.token, Ask(AdviseKey(a, keystrokeMgr, source)), Done(Unexpected)))
    case AdviseKey(a, keystrokeMgr, source) =>
      (match answer
       case None => Do(AbortToken(a.token), Done(HostFailure))
       case Some(_) =>
         Do(RecordKey(a.client),
            Pause(IfCurrent(a.token, Ask(AdviseThread(a, keystrokeMgr, source)), Unadvise(ForgetKey(a.client), Done(Unexpected))))))
    case AdviseThread(a, keystrokeMgr, source) =>
      (match answer
       case None => Unadvise(ForgetKey(a.client), Do(AbortToken(a.token), Done(HostFailure)))
       case Some(cookie) =>
         var h := Holding(a, keystrokeMgr, source, cookie);
         Do(RecordSink(cookie), Pause(IfCurrent(a.token, Ask(FocusedDocument(h)), RollBack(h, Done(Unexpected))))))
    case FocusedDocument(h) =>
      IfCurrent(h.attempt.token, Ask(DocumentIdentity(h, answer)), RollBack(h, Done(Unexpected)))
    case DocumentIdentity(h, document) =>
      IfCurrent(h.attempt.token, Ask(TopContext(h, document, answer)), RollBack(h, Done(Unexpected)))
    case TopContext(h, document, identity) =>
      IfCurrent(h.attempt.token, Ask(CreateWindow(h, FirstFocus(document, identity, answer))), RollBack(h, Done(Unexpected)))
    case CreateWindow(h, focus) =>
      (match answer
       case None => RollBack(h, Do(AbortToken(h.attempt.token), Done(Unexpected)))
       case Some(threadMgr) =>
         CompleteWith(h, threadMgr, focus, AfterPublication(h.attempt.token, focus.context), RollBack(h, Done(NoInterface))))
    case FocusIdentity(ticket, document) => Ask(FocusTop(ticket, document, WhenSome(document, answer)))
    case FocusTop(ticket, document, identity) => TryFocus(ticket, Focus(document, identity, WhenSome(document, answer)))
    case UninitIdentity(ticket, document) => TryClear(ticket, WhenSome(document, answer))
    case ChangedIdentity(ticket, context, popped) =>
      var identity := WhenSome(context, answer);
      if popped then Ask(ContextBelow(ticket, context, identity)) else TryContext(ticket, identity, context)
    case ContextBelow(ticket, context, identity) => TryContext(ticket, identity, WhenSome(context, answer))
  }

  /** The same for the questions of a subscription. */
  function Sourced(name: SlotName, context: nat, next: Program, answer: Option<nat>): Program {
    if answer.Some? then AskCookie(name, context, next) else Do(ReturnSlot(name), next)
  }

  function Subscribed(name: SlotName, context: nat, next: Program, answer: Option<nat>): Program {
    match answer
    case None => Do(ReturnSlot(name), next)
    case Some(cookie) => Do(RecordSubscription(name, cookie), Pause(Do(KeepSubscription(name, cookie, context), next)))
  }

  /** `run_before_drop`: what the state held is undone, the thread sink first. */
  function Undo(released: Option<Released>): Program {
    if released.None? then Done(Ok)
    else
      var keys := if released.value.keystrokeMgr.Some? then Unadvise(ForgetKey(released.value.clientId), Done(Ok)) else Done(Ok);
      if released.value.source.Some? && released.value.cookie.Some? then Unadvise(ForgetSink(released.value.cookie.value), keys)
      else keys
  }

  /** After `begin_deactivation`: the language bar item dropped, the cells cleared, the window destroyed,
      and the sinks undone. */
  function AfterEnd(released: Option<Released>): Program {
    Pause(Do(ClearCells, Pause(Undo(released))))
  }

  // ---------------------------------------------------------------- the machine

  /** A subscription cell, borrowed while it is being replaced: its cookie and the context that was advised to,
      and the host's ledger of its cookies. */
  datatype Slot = Slot(busy: bool, cookie: Option<nat>, context: Option<nat>, advised: multiset<nat>)

  datatype Stack = Idle | Call(waiting: Program, below: Stack)

  /** The cells hold window, channel and I/O thread of one activation, named by its token. */
  datatype Machine = Machine(
    state: State, keys: multiset<nat>, sinks: multiset<nat>, edit: Slot, layout: Slot,
    cells: Option<nat>, log: Log, stack: Stack, last: Hresult)
  {
    function SlotOf(name: SlotName): Slot { if name.TextEdit? then edit else layout }

    /** What a replacement subscribes to: nothing in the layout cell while there is no window. */
    function Effective(wanted: Option<nat>, needsWindow: bool): Option<nat> {
      if needsWindow && cells.None? then None else wanted
    }

    function WithSlot(name: SlotName, slot: Slot): Machine {
      if name.TextEdit? then this.(edit := slot) else this.(layout := slot)
    }
  }

  const EMPTY_SLOT := Slot(false, None, None, multiset{})

  const START := Machine(FRESH, multiset{}, multiset{}, EMPTY_SLOT, EMPTY_SLOT, None, Blank, Idle, Ok)

  function Perform(m: Machine, action: Action): Machine {
    match action
    case RecordKey(client) => m.(keys := m.keys + multiset{client})
    case ForgetKey(client) => m.(keys := m.keys - multiset{client})
    case RecordSink(cookie) => m.(sinks := m.sinks + multiset{cookie})
    case ForgetSink(cookie) => m.(sinks := m.sinks - multiset{cookie})
    case RecordSubscription(name, cookie) =>
      m.WithSlot(name, m.SlotOf(name).(advised := m.SlotOf(name).advised + multiset{cookie}))
    case ForgetSubscription(name, cookie) =>
      m.WithSlot(name, m.SlotOf(name).(advised := m.SlotOf(name).advised - multiset{cookie}))
    case KeepSubscription(name, cookie, context) =>
      m.WithSlot(name, m.SlotOf(name).(busy := false, cookie := Some(cookie), context := Some(context)))
    case ReturnSlot(name) => m.WithSlot(name, m.SlotOf(name).(busy := false))
    case AbortToken(token) => m.(state := Abort(m.state, token))
    case StoreCells(token) => m.(cells := Some(token), log := Log.After(m.log, Stored(token)))
    case ClearCells => m.(cells := None, log := Log.After(m.log, Cleared))
  }

  /** The cell is borrowed, its cookie taken out of it. */
  function Borrow(m: Machine, name: SlotName): Machine {
    m.WithSlot(name, m.SlotOf(name).(busy := true, cookie := None, context := None))
  }

  function Subscribe(name: SlotName, wanted: Option<nat>, next: Program): Program {
    if wanted.Some? then AskSource(name, wanted.value, next) else Do(ReturnSlot(name), next)
  }

  /** A replacement that has borrowed the cell: the old subscription first, if there is one. */
  function Renew(name: SlotName, cookie: Option<nat>, wanted: Option<nat>, next: Program): Program {
    match cookie
    case None => Subscribe(name, wanted, next)
    case Some(c) => Unadvise(ForgetSubscription(name, c), Subscribe(name, wanted, next))
  }

  function Weight(p: Program): nat {
    match p
    case Do(_, next) => 1 + Weight(next)
    case IfCurrent(_, yes, no) => 1 + Weight(yes) + Weight(no)
    case CompleteWith(_, _, _, yes, no) => 1 + Weight(yes) + Weight(no)
    case Replace(_, _, _, next) => 3 + Weight(next)
    case End => 1
    case TryFocus(_, _) => 1
    case TryClear(_, _) => 1
    case TryContext(_, _, _) => 1
    case _ => 0
  }

  predicate Stopped(p: Program) { p.Done? || p.Pause? || p.Unadvise? || p.Ask? || p.AskSource? || p.AskCookie? }

  /** One step of a program that is not at a stop, and the rest of it. */
  function Move(m: Machine, p: Program): (moved: (Machine, Program))
    requires !Stopped(p)
    ensures Weight(moved.1) < Weight(p)
  {
    match p
    case Do(action, next) => (Perform(m, action), next)
    case IfCurrent(token, yes, no) => (m, if m.state.CanComplete(token) then yes else no)
    case CompleteWith(h, threadMgr, focus, yes, no) =>
      if m.state.CanComplete(h.attempt.token) then
        var resources := Resources(threadMgr, h.keystrokeMgr, h.source, h.cookie, focus);
        (m.(state := Complete(m.state, h.attempt.token, resources),
            log := Log.After(m.log, Published(h.attempt.token))), yes)
      else (m, no)
    case End =>
      var ended := Apartment.Deactivate(m.state);
      (m.(state := ended.1, log := Log.After(m.log, Ended)), AfterEnd(ended.0))
    case Replace(name, wanted, needsWindow, next) =>
      var slot := m.SlotOf(name);
      if slot.busy then (m, next)
      else (Borrow(m, name), Renew(name, slot.cookie, m.Effective(wanted, needsWindow), next))
    case TryFocus(ticket, focus) =>
      var update := SetFocusIfCurrent(m.state, ticket, focus);
      (m.(state := update.1),
       Pause(if update.0.Success? then Follow(focus.context, true, Done(Ok)) else Done(Unexpected)))
    case TryClear(ticket, identity) =>
      var update := ClearIfIdentityCurrent(m.state, ticket, identity);
      (m.(state := update.1), if update.0.Some? then Pause(Follow(None, true, Pause(Done(Ok)))) else Done(Ok))
    case TryContext(ticket, identity, offered) =>
      var update := ReplaceContextIfCurrent(m.state, ticket, identity, offered);
      (m.(state := update.1), Pause(if update.0.Success? then Follow(offered, true, Done(Ok)) else Done(Ok)))
  }

  /** Run a program to its next stop, on top of whatever is waiting. */
  function Advance(m: Machine, p: Program): Machine
    decreases Weight(p)
  {
    if p.Done? then m.(last := p.result)
    else if Stopped(p) then m.(stack := Call(p, m.stack))
    else
      var moved := Move(m, p);
      Advance(moved.0, moved.1)
  }

  /** What a waiting program goes on with when its outside call returns. */
  function Resumed(waiting: Program, answer: Option<nat>): Program {
    match waiting
    case Pause(next) => next
    case Unadvise(action, next) => Do(action, Pause(next))
    case Ask(question) => Resume(question, answer)
    case AskSource(name, context, next) => Sourced(name, context, next, answer)
    case AskCookie(name, context, next) => Subscribed(name, context, next, answer)
    case other => other
  }

  /** One host event: a reply to the topmost waiting call, or a new call. */
  function Step(m: Machine, event: HostEvent): Machine {
    match event
    case Reply(ok, value) =>
      (match m.stack
       case Idle => m
       case Call(waiting, below) =>
         Advance(m.(stack := below), Resumed(waiting, if ok then Some(value) else None)))
    case CallActivate(client) =>
      var begun := Begin(m.state, client);
      if begun.0.None? then m.(last := AlreadyExists)
      else Advance(m.(state := begun.1), Ask(Manager(Attempt(begun.0.value, client))))
    case CallDeactivate => Advance(m, Follow(None, false, End))
    case CallSetFocus(document) => Advance(m, Ask(FocusIdentity(m.state.focusGeneration, document)))
    case CallUninitDocument(document) => Advance(m, Ask(UninitIdentity(m.state.focusGeneration, document)))
    case CallChangeContext(context, popped) => Advance(m, Ask(ChangedIdentity(m.state.focusGeneration, context, popped)))
  }

  function Run(m: Machine, events: seq<HostEvent>): Machine
    decreases |events|
  {
    if events == [] then m else Run(Step(m, events[0]), events[1..])
  }

  // ---------------------------------------------------------------- the object

  /** The text service with the calls waiting in it. The apartment state is the object it keeps. */
  class TextService {
    const apartment: ApartmentState
    var keys: multiset<nat>
    var sinks: multiset<nat>
    var edit: Slot
    var layout: Slot
    var cells: Option<nat>
    var log: Log
    var stack: Stack
    var last: Hresult

    function Model(): Machine
      reads this, apartment
    {
      Machine(apartment.Model(), keys, sinks, edit, layout, cells, log, stack, last)
    }

    constructor ()
      ensures fresh(apartment) && apartment.Consistent() && Model() == START
    {
      apartment := new ApartmentState();
      keys, sinks := multiset{}, multiset{};
      edit, layout := EMPTY_SLOT, EMPTY_SLOT;
      cells, log, stack, last := None, Blank, Idle, Ok;
    }

    method SetSlot(name: SlotName, slot: Slot)
      modifies `edit, `layout
      ensures Model() == old(Model()).WithSlot(name, slot)
    {
      if name.TextEdit? {
        edit := slot;
      } else {
        layout := slot;
      }
    }

    /** An action on one of the subscription cells or on its book. */
    method ExecuteOnSlot(action: Action)
      requires action.RecordSubscription? || action.ForgetSubscription? || action.KeepSubscription? || action.ReturnSlot?
      modifies `edit, `layout
      ensures Model() == Perform(old(Model()), action)
    {
      var slot := if action.name.TextEdit? then edit else layout;
      if action.RecordSubscription? {
        slot := slot.(advised := slot.advised + multiset{action.cookie});
      } else if action.ForgetSubscription? {
        slot := slot.(advised := slot.advised - multiset{action.cookie});
      } else if action.KeepSubscription? {
        slot := slot.(busy := false, cookie := Some(action.cookie), context := Some(action.context));
      } else {
        slot := slot.(busy := false);
      }
      SetSlot(action.name, slot);
    }

    method ExecuteOnSink(action: Action)
      requires action.RecordKey? || action.ForgetKey? || action.RecordSink? || action.ForgetSink?
      modifies `keys, `sinks
      ensures Model() == Perform(old(Model()), action)
    {
      if action.RecordKey? {
        keys := keys + multiset{action.client};
      } else if action.ForgetKey? {
        keys := keys - multiset{action.client};
      } else if action.RecordSink? {
        sinks := sinks + multiset{action.cookie};
      } else {
        sinks := sinks - multiset{action.cookie};
      }
    }

    method Execute(action: Action)
      requires apartment.Consistent()
      modifies this, apartment
      ensures apartment.Consistent() && Model() == Perform(old(Model()), action)
    {
      if action.AbortToken? {
        apartment.AbortActivation(action.token);
      } else if action.StoreCells? {
        cells, log := Some(action.token), Log.After(log, Stored(action.token));
      } else if action.ClearCells? {
        cells, log := None, Log.After(log, Cleared);
      } else if action.RecordKey? || action.ForgetKey? || action.RecordSink? || action.ForgetSink? {
        ExecuteOnSink(action);
      } else {
        ExecuteOnSlot(action);
      }
    }

    /** A call that takes the state over, ends it, or changes the focus. */
    method Decide(p: Program) returns (next: Program)
      requires p.CompleteWith? || p.End? || p.TryFocus? || p.TryClear? || p.TryContext?
      requires apartment.Consistent()
      modifies this, apartment
      ensures apartment.Consistent() && Model() == Move(old(Model()), p).0
      ensures next == Move(old(Model()), p).1
    {
      match p
      case CompleteWith(h, threadMgr, focus, yes, no) =>
        var accepted := apartment.CompleteActivation(h.attempt.token, Resources(threadMgr, h.keystrokeMgr, h.source, h.cookie, focus));
        if accepted {
          log := Log.After(log, Published(h.attempt.token));
        }
        next := if accepted then yes else no;
      case End =>
        var released := apartment.BeginDeactivation();
        log := Log.After(log, Ended);
        next := AfterEnd(released);
      case TryFocus(ticket, focus) =>
        var r := apartment.ReplaceFocusIfCurrent(ticket, focus);
        next := Pause(if r.Success? then Follow(focus.context, true, Done(Ok)) else Done(Unexpected));
      case TryClear(ticket, identity) =>
        var r := apartment.ClearFocusIfCurrent(ticket, identity);
        next := if r.Some? then Pause(Follow(None, true, Pause(Done(Ok)))) else Done(Ok);
      case TryContext(ticket, identity, offered) =>
        var r := apartment.ReplaceFocusedContextIfCurrent(ticket, identity, offered);
        next := Pause(if r.Success? then Follow(offered, true, Done(Ok)) else Done(Ok));
    }

    /** Runs to the next stop. */
    method Proceed(start: Program)
      requires apartment.Consistent()
      modifies this, apartment
      ensures apartment.Consistent() && Model() == Advance(old(Model()), start)
    {
      var p := start;
      while !Stopped(p)
        invariant apartment.Consistent() && Advance(Model(), p) == Advance(old(Model()), start)
        decreases Weight(p)
      {
        ghost var was, at := Model(), p;
        if p.Do? {
          Execute(p.action);
          p := p.next;
        } else if p.IfCurrent? {
          p := if apartment.Model().CanComplete(p.token) then p.yes else p.no;
        } else if p.Replace? {
          var slot := Model().SlotOf(p.name);
          if slot.busy {
            p := p.next;
          } else {
            SetSlot(p.name, slot.(busy := true, cookie := None, context := None));
            p := Renew(p.name, slot.cookie, if p.needsWindow && cells.None? then None else p.wanted, p.next);
          }
        } else {
          p := Decide(p);
        }
        assert (Model(), p) == Move(was, at);
      }
      if p.Done? {
        last := p.result;
      } else {
        stack := Call(p, stack);
      }
    }

    /** Serves one host event. */
    method Handle(event: HostEvent)
      requires apartment.Consistent()
      modifies this, apartment
      ensures apartment.Consistent() && Model() == Step(old(Model()), event)
    {
      match event
      case Reply(ok, value) => {
        if stack.Call? {
          var waiting := stack.waiting;
          stack := stack.below;
          Proceed(Resumed(waiting, if ok then Some(value) else None));
        }
      }
      case CallActivate(client) => {
        var token := apartment.BeginActivation(client);
        if token.Some? {
          Proceed(Ask(Manager(Attempt(token.value, client))));
        } else {
          last := AlreadyExists;
        }
      }
      case CallDeactivate => {
        Proceed(Follow(None, false, End));
      }
      case CallSetFocus(document) => {
        Proceed(Ask(FocusIdentity(apartment.focusGeneration, document)));
      }
      case CallUninitDocument(document) => {
        Proceed(Ask(UninitIdentity(apartment.focusGeneration, document)));
      }
      case CallChangeContext(context, popped) => {
        Proceed(Ask(ChangedIdentity(apartment.focusGeneration, context, popped)));
      }
    }
  }
}
