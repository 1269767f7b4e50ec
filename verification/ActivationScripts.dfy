/** What activation and deactivation do when the host does not re-enter them, and the two ways in which
    window, channel and I/O thread end up in the wrong place when it does. */
module ActivationScripts {
  import opened Wrappers
  import opened Numbers
  import opened Apartment
  import opened Publication
  import opened Activation

  lemma RunCons(m: Machine, event: HostEvent, rest: seq<HostEvent>)
    ensures Run(m, [event] + rest) == Run(Step(m, event), rest)
  {
    assert ([event] + rest)[1..] == rest;
  }

  lemma RunOne(m: Machine, event: HostEvent)
    ensures Run(m, [event]) == Step(m, event)
  {
    RunCons(m, event, []);
  }

  lemma RunTwo(m: Machine, first: HostEvent, second: HostEvent)
    ensures Run(m, [first, second]) == Step(Step(m, first), second)
  {
    RunCons(m, first, [second]);
    RunOne(Step(m, first), second);
  }

  lemma RunThree(m: Machine, first: HostEvent, second: HostEvent, third: HostEvent)
    ensures Run(m, [first, second, third]) == Step(Step(Step(m, first), second), third)
  {
    RunCons(m, first, [second, third]);
    RunTwo(Step(m, first), second, third);
  }

  lemma RunFour(m: Machine, first: HostEvent, second: HostEvent, third: HostEvent, fourth: HostEvent)
    ensures Run(m, [first, second, third, fourth]) == Step(Step(Step(Step(m, first), second), third), fourth)
  {
    RunCons(m, first, [second, third, fourth]);
    RunThree(Step(m, first), second, third, fourth);
  }

  lemma {:induction false} RunAppends(m: Machine, first: seq<HostEvent>, second: seq<HostEvent>)
    ensures Run(m, first + second) == Run(Run(m, first), second)
    decreases |first|
  {
    if first == [] {
      assert first + second == second;
    } else {
      assert (first + second)[1..] == first[1..] + second;
      RunAppends(Step(m, first[0]), first[1..], second);
    }
  }

  function Answer(item: Option<nat>): HostEvent { if item.Some? then Reply(true, item.value) else Reply(false, 0) }

  const OK := Reply(true, 0)

  // ---------------------------------------------------------------- an undisturbed activation

  /** A check that passes while a call waits for its answer. */
  lemma Passes(m: Machine, event: HostEvent, token: U64, next: Program, no: Program)
    requires m.stack.Call? && event.Reply? && Stopped(next) && !next.Done? && m.state.CanComplete(token)
    requires Resumed(m.stack.waiting, if event.ok then Some(event.value) else None) == IfCurrent(token, next, no)
    ensures Step(m, event) == m.(stack := Call(next, m.stack.below))
  {
    var rest := m.(stack := m.stack.below);
    assert Advance(rest, IfCurrent(token, next, no)) == Advance(rest, next);
  }

  lemma AsksForBoth(m: Machine, client: nat, keystrokeMgr: nat, source: nat)
    requires !m.state.IsLive()
    ensures var state := Begin(m.state, client).1;
            var q := AdviseKey(Attempt(state.activationGeneration, client), keystrokeMgr, source);
            Run(m, [CallActivate(client), OK, Reply(true, keystrokeMgr), Reply(true, source)])
              == m.(state := state, stack := Call(Ask(q), m.stack))
  {
    var state := Begin(m.state, client).1;
    var a := Attempt(state.activationGeneration, client);
    var m1 := m.(state := state, stack := Call(Ask(Manager(a)), m.stack));
    var m2 := m1.(stack := Call(Ask(Keystroke(a)), m.stack));
    var m3 := m1.(stack := Call(Ask(Source(a, keystrokeMgr)), m.stack));
    var m4 := m1.(stack := Call(Ask(AdviseKey(a, keystrokeMgr, source)), m.stack));
    Passes(m1, OK, a.token, Ask(Keystroke(a)), Done(Unexpected));
    Passes(m2, Reply(true, keystrokeMgr), a.token, Ask(Source(a, keystrokeMgr)), Done(Unexpected));
    Passes(m3, Reply(true, source), a.token, Ask(AdviseKey(a, keystrokeMgr, source)), Done(Unexpected));
    RunFour(m, CallActivate(client), OK, Reply(true, keystrokeMgr), Reply(true, source));
  }

  /** Recording, and the stop after it. */
  lemma Records(m: Machine, event: HostEvent, action: Action, rest: Program)
    requires m.stack.Call? && event.Reply?
    requires Resumed(m.stack.waiting, if event.ok then Some(event.value) else None) == Do(action, Pause(rest))
    requires !action.AbortToken? && Perform(m, action).stack == m.stack
    ensures Step(m, event) == Perform(m, action).(stack := Call(Pause(rest), m.stack.below))
  {
    var under := m.(stack := m.stack.below);
    assert Advance(under, Do(action, Pause(rest))) == Advance(Perform(under, action), Pause(rest));
    assert Perform(under, action).(stack := Call(Pause(rest), m.stack.below))
        == Perform(m, action).(stack := Call(Pause(rest), m.stack.below));
  }

  lemma AdvisesBoth(m: Machine, a: Attempt, keystrokeMgr: nat, source: nat, cookie: nat, below: Stack)
    requires m.stack == Call(Ask(AdviseKey(a, keystrokeMgr, source)), below) && m.state.CanComplete(a.token)
    ensures Run(m, [OK, OK, Reply(true, cookie), OK])
         == m.(keys := m.keys + multiset{a.client}, sinks := m.sinks + multiset{cookie},
               stack := Call(Ask(FocusedDocument(Holding(a, keystrokeMgr, source, cookie))), below))
  {
    var h := Holding(a, keystrokeMgr, source, cookie);
    var undo := Unadvise(ForgetKey(a.client), Done(Unexpected));
    var check := IfCurrent(a.token, Ask(AdviseThread(a, keystrokeMgr, source)), undo);
    var last := IfCurrent(a.token, Ask(FocusedDocument(h)), RollBack(h, Done(Unexpected)));
    var m1 := m.(keys := m.keys + multiset{a.client}, stack := Call(Pause(check), below));
    var m2 := m1.(stack := Call(check.yes, below));
    var m3 := m1.(sinks := m.sinks + multiset{cookie}, stack := Call(Pause(last), below));
    Records(m, OK, RecordKey(a.client), check);
    Passes(m1, OK, a.token, check.yes, check.no);
    Records(m2, Reply(true, cookie), RecordSink(cookie), last);
    Passes(m3, OK, a.token, last.yes, last.no);
    RunFour(m, OK, OK, Reply(true, cookie), OK);
  }

  /** The activation completed with the focus the host answered. */
  function Completed(m: Machine, h: Holding, threadMgr: nat, focus: Focus): Machine {
    m.(state := Complete(m.state, h.attempt.token, Resources(threadMgr, h.keystrokeMgr, h.source, h.cookie, focus)),
       log := Log.After(m.log, Published(h.attempt.token)))
  }

  lemma Accepts(m: Machine, h: Holding, focus: Focus, threadMgr: nat, below: Stack)
    requires m.stack == Call(Ask(CreateWindow(h, focus)), below) && m.state.CanComplete(h.attempt.token)
    ensures Step(m, Reply(true, threadMgr))
         == Advance(Completed(m.(stack := below), h, threadMgr, focus), AfterPublication(h.attempt.token, focus.context))
  {
    var no := RollBack(h, Done(NoInterface));
    var p := CompleteWith(h, threadMgr, focus, AfterPublication(h.attempt.token, focus.context), no);
    assert Resume(CreateWindow(h, focus), Some(threadMgr)) == p;
    var rest := m.(stack := below);
    assert Move(rest, p) == (Completed(rest, h, threadMgr, focus), p.yes);
    assert Advance(rest, p) == Advance(Completed(rest, h, threadMgr, focus), p.yes);
  }

  lemma AsksForFocus(m: Machine, h: Holding, document: Option<nat>, identity: Option<nat>, context: Option<nat>, below: Stack)
    requires m.stack == Call(Ask(FocusedDocument(h)), below) && m.state.CanComplete(h.attempt.token)
    ensures Run(m, [Answer(document), Answer(identity), Answer(context)])
         == m.(stack := Call(Ask(CreateWindow(h, FirstFocus(document, identity, context))), below))
  {
    var focus := FirstFocus(document, identity, context);
    var undo := RollBack(h, Done(Unexpected));
    var m1 := m.(stack := Call(Ask(DocumentIdentity(h, document)), below));
    var m2 := m.(stack := Call(Ask(TopContext(h, document, identity)), below));
    Passes(m, Answer(document), h.attempt.token, Ask(DocumentIdentity(h, document)), undo);
    Passes(m1, Answer(identity), h.attempt.token, Ask(TopContext(h, document, identity)), undo);
    Passes(m2, Answer(context), h.attempt.token, Ask(CreateWindow(h, focus)), undo);
    RunThree(m, Answer(document), Answer(identity), Answer(context));
  }

  /** A whole activation as the host answers it. */
  datatype Answers = Answers(
    client: nat, keystrokeMgr: nat, source: nat, cookie: nat, document: Option<nat>, identity: Option<nat>, context: Option<nat>, threadMgr: nat)
  {
    /** The events up to the creation of the window. */
    function UpToWindow(): seq<HostEvent> {
      [CallActivate(client), OK, Reply(true, keystrokeMgr), Reply(true, source)] + [OK, OK, Reply(true, cookie), OK]
      + [Answer(document), Answer(identity), Answer(context)]
    }

    function Events(): seq<HostEvent> { UpToWindow() + [Reply(true, threadMgr)] }

    /** The focused document with the answers given for it, or no focus. */
    function InitialFocus(): Focus {
      match document
      case None => Focus(None, None, None)
      case Some(_) => Focus(document, identity, context)
    }

    function Held(m: Machine): Holding {
      Holding(Attempt(Begin(m.state, client).1.activationGeneration, client), keystrokeMgr, source, cookie)
    }

    /** The activation begun and both sinks advised. */
    function Advised(m: Machine): Machine {
      m.(state := Begin(m.state, client).1, keys := m.keys + multiset{client}, sinks := m.sinks + multiset{cookie})
    }

    function Accepted(m: Machine): Machine { Completed(Advised(m), Held(m), threadMgr, InitialFocus()) }
  }

  lemma ReachesWindow(m: Machine, h: Answers)
    requires !m.state.IsLive()
    ensures Run(m, h.UpToWindow())
         == h.Advised(m).(stack := Call(Ask(CreateWindow(h.Held(m), h.InitialFocus())), m.stack))
  {
    var k := h.Held(m);
    var first := [CallActivate(h.client), OK, Reply(true, h.keystrokeMgr), Reply(true, h.source)];
    var second := [OK, OK, Reply(true, h.cookie), OK];
    var third := [Answer(h.document), Answer(h.identity), Answer(h.context)];
    RunAppends(m, first + second, third);
    RunAppends(m, first, second);
    AsksForBoth(m, h.client, h.keystrokeMgr, h.source);
    var m1 := m.(state := Begin(m.state, h.client).1, stack := Call(Ask(AdviseKey(k.attempt, h.keystrokeMgr, h.source)), m.stack));
    AdvisesBoth(m1, k.attempt, h.keystrokeMgr, h.source, h.cookie, m.stack);
    AsksForFocus(Run(m1, second), k, h.document, h.identity, h.context, m.stack);
  }

  /** An activation the host answers without re-entering, begun while none is live, is accepted with the
      resources and the focus it was given, both sinks advised, on top of whatever was waiting. */
  lemma CalmActivation(m: Machine, h: Answers)
    requires !m.state.IsLive()
    ensures var t := h.Accepted(m);
            Run(m, h.Events()) == Advance(t, AfterPublication(t.state.activationGeneration, h.InitialFocus().context))
    ensures var t := h.Accepted(m).state;
            && t.IsActivated() && t.keyAdmission && !t.inProgress && t.focus == h.InitialFocus() && t.clientId == h.client
            && t.threadMgr == Some(h.threadMgr) && t.keystrokeMgr == Some(h.keystrokeMgr)
            && t.source == Some(h.source) && t.cookie == Some(h.cookie)
            && t.activationGeneration == WrappingInc(m.state.activationGeneration)
  {
    ReachesWindow(m, h);
    var asked := h.Advised(m);
    RunAppends(m, h.UpToWindow(), [Reply(true, h.threadMgr)]);
    var at := asked.(stack := Call(Ask(CreateWindow(h.Held(m), h.InitialFocus())), m.stack));
    Accepts(at, h.Held(m), h.InitialFocus(), h.threadMgr, m.stack);
    RunOne(at, Reply(true, h.threadMgr));
    assert at.(stack := m.stack) == asked;
  }

  // ---------------------------------------------------------------- storing and deactivating

  /** Nothing is in a cell, or in both; either may be on loan. */
  predicate Vacant(slot: Slot) { slot.cookie.None? && slot.context.None? }

  predicate Unsubscribed(m: Machine) { Vacant(m.edit) && Vacant(m.layout) }

  lemma KeepsUnsubscribed(m: Machine, name: SlotName, needsWindow: bool, next: Program)
    requires Vacant(m.SlotOf(name))
    ensures Advance(m, Replace(name, None, needsWindow, next)) == Advance(m, next)
  {
    if !m.SlotOf(name).busy {
      var borrowed := Borrow(m, name);
      assert Perform(borrowed, ReturnSlot(name)) == m;
      assert Advance(borrowed, Do(ReturnSlot(name), next)) == Advance(m, next);
    }
  }

  lemma KeepsBothUnsubscribed(m: Machine, needsWindow: bool, next: Program)
    requires Unsubscribed(m)
    ensures Advance(m, Follow(None, needsWindow, next)) == Advance(m, next)
  {
    KeepsUnsubscribed(m, TextLayout, needsWindow, next);
    KeepsUnsubscribed(m, TextEdit, false, Replace(TextLayout, None, needsWindow, next));
  }

  /** The stop at which the language bar is attached. */
  function Attaching(token: U64): Program { Pause(Pause(Do(StoreCells(token), Done(Ok)))) }

  function Stores(m: Machine, token: U64): Machine {
    m.(cells := Some(token), log := Log.After(m.log, Stored(token)), last := Ok)
  }

  lemma Returns(m: Machine, next: Program, below: Stack)
    requires m.stack == Call(Pause(next), below)
    ensures Step(m, OK) == Advance(m.(stack := below), next)
  {
  }

  lemma StoresLast(m: Machine, token: U64)
    ensures Advance(m, Do(StoreCells(token), Done(Ok))) == Stores(m, token)
  {
    assert Advance(m, Do(StoreCells(token), Done(Ok))) == Advance(Perform(m, StoreCells(token)), Done(Ok));
  }

  lemma StoresCells(m: Machine, token: U64, below: Stack)
    requires m.stack == Call(Attaching(token), below)
    ensures Run(m, [OK, OK]) == Stores(m.(stack := below), token)
  {
    var store := Do(StoreCells(token), Done(Ok));
    var m1 := m.(stack := Call(Pause(store), below));
    Returns(m, Pause(store), below);
    Returns(m1, store, below);
    StoresLast(m.(stack := below), token);
    RunTwo(m, OK, OK);
  }

  /** Deactivated, with the language bar item about to be dropped. */
  function EndedBy(m: Machine): Machine {
    m.(state := Apartment.Deactivate(m.state).1, log := Log.After(m.log, Ended),
       stack := Call(AfterEnd(Apartment.Deactivate(m.state).0), m.stack))
  }

  lemma EndsActivation(m: Machine)
    requires Unsubscribed(m)
    ensures Step(m, CallDeactivate) == EndedBy(m)
  {
    KeepsBothUnsubscribed(m, false, End);
    var ended := Apartment.Deactivate(m.state);
    assert Move(m, End) == (m.(state := ended.1, log := Log.After(m.log, Ended)), AfterEnd(ended.0));
    assert Advance(m, End) == Advance(m.(state := ended.1, log := Log.After(m.log, Ended)), AfterEnd(ended.0));
  }

  function Clears(m: Machine): Machine { m.(cells := None, log := Log.After(m.log, Cleared)) }

  lemma ClearsCells(m: Machine, released: Option<Released>, below: Stack)
    requires m.stack == Call(AfterEnd(released), below)
    ensures Step(m, OK) == Clears(m).(stack := Call(Pause(Undo(released)), below))
  {
    var rest := m.(stack := below);
    assert Advance(rest, Do(ClearCells, Pause(Undo(released)))) == Advance(Clears(rest), Pause(Undo(released)));
  }

  lemma Unadvises(m: Machine, action: Action, rest: Program, below: Stack)
    requires m.stack == Call(Unadvise(action, rest), below)
    requires action.ForgetKey? || action.ForgetSink? || action.ForgetSubscription?
    ensures Run(m, [OK, OK]) == Advance(Perform(m, action).(stack := below), rest)
  {
    var m1 := Perform(m, action).(stack := Call(Pause(rest), below));
    Records(m, OK, action, rest);
    Returns(m1, rest, below);
    RunTwo(m, OK, OK);
  }

  lemma UndoesBoth(m: Machine, r: Released, below: Stack)
    requires m.stack == Call(Pause(Undo(Some(r))), below)
    requires r.keystrokeMgr.Some? && r.source.Some? && r.cookie.Some?
    ensures Run(m, [OK] + [OK, OK] + [OK, OK])
         == m.(stack := below, keys := m.keys - multiset{r.clientId}, sinks := m.sinks - multiset{r.cookie.value}, last := Ok)
  {
    var key := Unadvise(ForgetKey(r.clientId), Done(Ok));
    var both := Unadvise(ForgetSink(r.cookie.value), key);
    var m1 := m.(stack := Call(both, below));
    var m2 := m.(stack := Call(key, below), sinks := m.sinks - multiset{r.cookie.value});
    assert Step(m, OK) == m1;
    Unadvises(m1, ForgetSink(r.cookie.value), key, below);
    Unadvises(m2, ForgetKey(r.clientId), Done(Ok), below);
    RunOne(m, OK);
    RunAppends(m, [OK], [OK, OK]);
    RunAppends(m, [OK] + [OK, OK], [OK, OK]);
  }

  const UNDOING := [OK] + [OK, OK] + [OK, OK]

  const DEACTIVATION := [CallDeactivate, OK] + UNDOING

  /** A deactivation that is not re-entered leaves nothing of the activation: neither sink, nor the window,
      the channel or the I/O thread. */
  lemma CalmDeactivation(m: Machine)
    requires Coherent(m.state) && m.state.IsActivated() && Unsubscribed(m)
    ensures Run(m, DEACTIVATION)
         == Clears(m).(state := Apartment.Deactivate(m.state).1, keys := m.keys - multiset{m.state.clientId},
                       sinks := m.sinks - multiset{m.state.cookie.value},
                       log := Log.After(Log.After(m.log, Ended), Cleared), last := Ok)
    ensures !Apartment.Deactivate(m.state).1.IsLive()
  {
    var released := Apartment.Deactivate(m.state).0;
    EndsActivation(m);
    ClearsCells(EndedBy(m), released, m.stack);
    var cleared := Clears(EndedBy(m)).(stack := Call(Pause(Undo(released)), m.stack));
    UndoesBoth(cleared, released.value, m.stack);
    RunTwo(m, CallDeactivate, OK);
    RunAppends(m, [CallDeactivate, OK], UNDOING);
  }

  // ---------------------------------------------------------------- subscriptions and focus callbacks

  /** The cell with a cookie advised and kept. */
  function Keeping(m: Machine, name: SlotName, context: nat, cookie: nat): Machine {
    m.WithSlot(name, Slot(false, Some(cookie), Some(context), m.SlotOf(name).advised + multiset{cookie}))
  }

  lemma KeepsAdvised(m: Machine, name: SlotName, context: nat, cookie: nat, next: Program, below: Stack)
    requires m.stack == Call(AskCookie(name, context, next), below) && m.SlotOf(name).busy
    ensures Run(m, [Reply(true, cookie), OK]) == Advance(Keeping(m.(stack := below), name, context, cookie), next)
  {
    var action := KeepSubscription(name, cookie, context);
    var keep := Do(action, next);
    var m2 := Perform(m, RecordSubscription(name, cookie)).(stack := Call(Pause(keep), below));
    Records(m, Reply(true, cookie), RecordSubscription(name, cookie), keep);
    Returns(m2, keep, below);
    assert Advance(m2.(stack := below), keep) == Advance(Perform(m2.(stack := below), action), next);
    assert Perform(m2.(stack := below), action) == Keeping(m.(stack := below), name, context, cookie);
    RunTwo(m, Reply(true, cookie), OK);
  }

  lemma KeepsCookie(m: Machine, name: SlotName, context: nat, cookie: nat, next: Program, below: Stack)
    requires m.stack == Call(AskSource(name, context, next), below) && m.SlotOf(name).busy
    ensures Run(m, [OK, Reply(true, cookie), OK]) == Advance(Keeping(m.(stack := below), name, context, cookie), next)
  {
    var m1 := m.(stack := Call(AskCookie(name, context, next), below));
    assert Step(m, OK) == m1;
    KeepsAdvised(m1, name, context, cookie, next, below);
    RunCons(m, OK, [Reply(true, cookie), OK]);
  }

  /** The replies to a replacement: to the unadvise of an old cookie, and to the questions for a new one. */
  function Replies(previous: Option<nat>, wanted: Option<nat>, cookie: nat): seq<HostEvent> {
    (if previous.Some? then [OK, OK] else []) + (if wanted.Some? then [OK, Reply(true, cookie), OK] else [])
  }

  /** The cell with its old cookie unadvised and, if a context is wanted, a new one advised to it and kept. */
  function Resubscribed(slot: Slot, wanted: Option<nat>, cookie: nat): Slot {
    var kept := if wanted.Some? then Some(cookie) else None;
    Slot(false, kept, wanted, slot.advised - Bag(slot.cookie) + Bag(kept))
  }

  lemma CalmSubscription(m: Machine, name: SlotName, wanted: Option<nat>, cookie: nat, next: Program)
    requires m.SlotOf(name).busy && Vacant(m.SlotOf(name))
    ensures Run(Advance(m, Subscribe(name, wanted, next)), Replies(None, wanted, cookie))
         == Advance(m.WithSlot(name, Resubscribed(m.SlotOf(name), wanted, cookie)), next)
  {
    var slot := m.SlotOf(name);
    assert slot.advised - Bag(None) == slot.advised;
    if wanted.Some? {
      var m1 := m.(stack := Call(AskSource(name, wanted.value, next), m.stack));
      assert Advance(m, Subscribe(name, wanted, next)) == m1;
      assert Replies(None, wanted, cookie) == [OK, Reply(true, cookie), OK];
      KeepsCookie(m1, name, wanted.value, cookie, next, m.stack);
      assert Keeping(m1.(stack := m.stack), name, wanted.value, cookie) == m.WithSlot(name, Resubscribed(slot, wanted, cookie));
    } else {
      var returned := Perform(m, ReturnSlot(name));
      assert Advance(m, Do(ReturnSlot(name), next)) == Advance(returned, next);
      assert returned == m.WithSlot(name, Resubscribed(slot, wanted, cookie));
    }
  }

  /** A cell that is borrowed with a cookie to unadvise first: the unadvise. */
  lemma ForgetsPrevious(m: Machine, name: SlotName, previous: nat, wanted: Option<nat>, next: Program)
    ensures var slot := m.SlotOf(name);
            Run(Advance(m, Renew(name, Some(previous), wanted, next)), [OK, OK])
              == Advance(m.WithSlot(name, slot.(advised := slot.advised - multiset{previous})), Subscribe(name, wanted, next))
  {
    var slot := m.SlotOf(name);
    var renewed := Renew(name, Some(previous), wanted, next);
    var m2 := m.(stack := Call(renewed, m.stack));
    assert Advance(m, renewed) == m2;
    Unadvises(m2, ForgetSubscription(name, previous), Subscribe(name, wanted, next), m.stack);
    assert Perform(m2, ForgetSubscription(name, previous)).(stack := m.stack)
        == m.WithSlot(name, slot.(advised := slot.advised - multiset{previous}));
  }

  lemma ForgottenThenResubscribed(m: Machine, name: SlotName, previous: nat, wanted: Option<nat>, cookie: nat)
    requires m.SlotOf(name).cookie.None?
    ensures var slot := m.SlotOf(name);
            var forgotten := m.WithSlot(name, slot.(advised := slot.advised - multiset{previous}));
            && forgotten.SlotOf(name) == slot.(advised := slot.advised - multiset{previous})
            && forgotten.WithSlot(name, Resubscribed(forgotten.SlotOf(name), wanted, cookie))
               == m.WithSlot(name, Resubscribed(slot.(cookie := Some(previous)), wanted, cookie))
  {
    var slot := m.SlotOf(name);
    assert (slot.advised - multiset{previous}) - Bag(None) == slot.advised - Bag(Some(previous));
  }

  lemma RepliesInTwo(previous: nat, wanted: Option<nat>, cookie: nat)
    ensures Replies(Some(previous), wanted, cookie) == [OK, OK] + Replies(None, wanted, cookie)
  {
  }

  /** And the new subscription after it. */
  lemma CalmRenewal(m: Machine, name: SlotName, previous: nat, wanted: Option<nat>, cookie: nat, next: Program)
    requires m.SlotOf(name).busy && Vacant(m.SlotOf(name))
    ensures var slot := m.SlotOf(name);
            Run(Advance(m, Renew(name, Some(previous), wanted, next)), Replies(Some(previous), wanted, cookie))
              == Advance(m.WithSlot(name, Resubscribed(slot.(cookie := Some(previous)), wanted, cookie)), next)
  {
    var slot := m.SlotOf(name);
    var forgotten := m.WithSlot(name, slot.(advised := slot.advised - multiset{previous}));
    var renewing := Advance(m, Renew(name, Some(previous), wanted, next));
    ForgottenThenResubscribed(m, name, previous, wanted, cookie);
    assert Run(renewing, [OK, OK]) == Advance(forgotten, Subscribe(name, wanted, next)) by {
      ForgetsPrevious(m, name, previous, wanted, next);
    }
    assert Run(renewing, Replies(Some(previous), wanted, cookie)) == Run(Run(renewing, [OK, OK]), Replies(None, wanted, cookie)) by {
      RepliesInTwo(previous, wanted, cookie);
      RunAppends(renewing, [OK, OK], Replies(None, wanted, cookie));
    }
    CalmSubscription(forgotten, name, wanted, cookie, next);
  }

  /** A replacement that is not re-entered: the old cookie is unadvised, a new one is advised and kept if one is
      wanted, and the call goes on. */
  lemma CalmReplacement(m: Machine, name: SlotName, wanted: Option<nat>, needsWindow: bool, cookie: nat, next: Program)
    requires !m.SlotOf(name).busy
    ensures var slot, effective := m.SlotOf(name), m.Effective(wanted, needsWindow);
            Run(Advance(m, Replace(name, wanted, needsWindow, next)), Replies(slot.cookie, effective, cookie))
              == Advance(m.WithSlot(name, Resubscribed(slot, effective, cookie)), next)
  {
    var slot, effective := m.SlotOf(name), m.Effective(wanted, needsWindow);
    var m1 := Borrow(m, name);
    assert Move(m, Replace(name, wanted, needsWindow, next)) == (m1, Renew(name, slot.cookie, effective, next));
    if slot.cookie.Some? {
      CalmRenewal(m1, name, slot.cookie.value, effective, cookie, next);
    } else {
      CalmSubscription(m1, name, effective, cookie, next);
    }
    assert m1.WithSlot(name, Resubscribed(slot, effective, cookie)) == m.WithSlot(name, Resubscribed(slot, effective, cookie));
  }

  /** Both subscriptions, and the replies to their replacements. */
  function Followed(m: Machine, wanted: Option<nat>, needsWindow: bool, edit: nat, layout: nat): Machine {
    m.(edit := Resubscribed(m.edit, wanted, edit), layout := Resubscribed(m.layout, m.Effective(wanted, needsWindow), layout))
  }

  function FollowReplies(m: Machine, wanted: Option<nat>, needsWindow: bool, edit: nat, layout: nat): seq<HostEvent> {
    Replies(m.edit.cookie, wanted, edit) + Replies(m.layout.cookie, m.Effective(wanted, needsWindow), layout)
  }

  lemma CalmFollow(m: Machine, wanted: Option<nat>, needsWindow: bool, edit: nat, layout: nat, next: Program)
    requires Free(m)
    ensures Run(Advance(m, Follow(wanted, needsWindow, next)), FollowReplies(m, wanted, needsWindow, edit, layout))
         == Advance(Followed(m, wanted, needsWindow, edit, layout), next)
  {
    var second := Replace(TextLayout, wanted, needsWindow, next);
    var m1 := m.(edit := Resubscribed(m.edit, wanted, edit));
    CalmReplacement(m, TextEdit, wanted, false, edit, second);
    CalmReplacement(m1, TextLayout, wanted, needsWindow, layout, next);
    RunAppends(Advance(m, Follow(wanted, needsWindow, next)), Replies(m.edit.cookie, wanted, edit),
               Replies(m.layout.cookie, m.Effective(wanted, needsWindow), layout));
  }

  predicate Free(m: Machine) { !m.edit.busy && !m.layout.busy }

  /** A focus callback has returned: a new focus in place, and both subscriptions made for its context. */
  function Refocused(m: Machine, focus: Focus, edit: nat, layout: nat): Machine {
    Followed(m.(state := m.state.(focus := focus, focusGeneration := WrappingInc(m.state.focusGeneration)), last := Ok),
             focus.context, true, edit, layout)
  }

  /** From the stop at which the previous focus is dropped to the return of the callback. */
  lemma FollowsFocus(m: Machine, t: Machine, context: Option<nat>, edit: nat, layout: nat)
    requires Free(m) && t == m.(state := t.state)
    ensures Run(t.(stack := Call(Pause(Follow(context, true, Done(Ok))), m.stack)), [OK] + FollowReplies(m, context, true, edit, layout))
         == Followed(t.(last := Ok), context, true, edit, layout)
  {
    var follow := Follow(context, true, Done(Ok));
    var m1 := t.(stack := Call(Pause(follow), m.stack));
    Returns(m1, follow, m.stack);
    assert m1.(stack := m.stack) == t;
    RunCons(m1, OK, FollowReplies(m, context, true, edit, layout));
    CalmFollow(t, context, true, edit, layout, Done(Ok));
  }

  lemma MovesToStop(m: Machine, p: Program)
    requires !Stopped(p) && Stopped(Move(m, p).1) && !Move(m, p).1.Done?
    ensures Advance(m, p) == Move(m, p).0.(stack := Call(Move(m, p).1, Move(m, p).0.stack))
  {
    assert Advance(m, p) == Advance(Move(m, p).0, Move(m, p).1);
  }

  /** An answer to the topmost question. */
  lemma Answered(m: Machine, q: Question, item: Option<nat>)
    ensures Step(m.(stack := Call(Ask(q), m.stack)), Answer(item)) == Advance(m, Resume(q, item))
  {
    assert m.(stack := Call(Ask(q), m.stack)).(stack := m.stack) == m;
  }

  lemma AsksNext(m: Machine, q: Question, item: Option<nat>, next: Question)
    requires Resume(q, item) == Ask(next)
    ensures Step(m.(stack := Call(Ask(q), m.stack)), Answer(item)) == m.(stack := Call(Ask(next), m.stack))
  {
    Answered(m, q, item);
  }

  /** The focus set, the previous one about to be dropped, and the subscriptions to follow it. */
  function Focused(m: Machine, focus: Focus): Machine {
    m.(state := SetFocus(m.state, focus).1, stack := Call(Pause(Follow(focus.context, true, Done(Ok))), m.stack))
  }

  lemma SetsFocus(m: Machine, focus: Focus)
    ensures Advance(m, TryFocus(m.state.focusGeneration, focus)) == Focused(m, focus)
  {
    MovesToStop(m, TryFocus(m.state.focusGeneration, focus));
  }

  lemma FocusIdentityAnswered(m: Machine, document: Option<nat>, identity: Option<nat>)
    ensures Step(m.(stack := Call(Ask(FocusIdentity(m.state.focusGeneration, document)), m.stack)), Answer(identity))
         == m.(stack := Call(Ask(FocusTop(m.state.focusGeneration, document, WhenSome(document, identity))), m.stack))
  {
    var ticket := m.state.focusGeneration;
    AsksNext(m, FocusIdentity(ticket, document), identity, FocusTop(ticket, document, WhenSome(document, identity)));
  }

  lemma AsksTop(m: Machine, document: Option<nat>, identity: Option<nat>)
    ensures Run(m, [CallSetFocus(document), Answer(identity)])
         == m.(stack := Call(Ask(FocusTop(m.state.focusGeneration, document, WhenSome(document, identity))), m.stack))
  {
    FocusIdentityAnswered(m, document, identity);
    RunTwo(m, CallSetFocus(document), Answer(identity));
  }

  lemma AsksAboutFocus(m: Machine, document: Option<nat>, identity: Option<nat>, context: Option<nat>)
    ensures Run(m, [CallSetFocus(document), Answer(identity)] + [Answer(context)])
         == Focused(m, Focus(document, WhenSome(document, identity), WhenSome(document, context)))
  {
    var q := FocusTop(m.state.focusGeneration, document, WhenSome(document, identity));
    AsksTop(m, document, identity);
    Answered(m, q, context);
    SetsFocus(m, Focus(document, WhenSome(document, identity), WhenSome(document, context)));
    RunAppends(m, [CallSetFocus(document), Answer(identity)], [Answer(context)]);
    RunOne(m.(stack := Call(Ask(q), m.stack)), Answer(context));
  }

  /** A focus callback that is not re-entered: when it returns, the document has the focus with the identity and
      the context the host answered, and both subscriptions are to that context. */
  lemma CalmSetFocus(m: Machine, document: Option<nat>, identity: Option<nat>, context: Option<nat>, edit: nat, layout: nat)
    requires Free(m)
    ensures Run(m, [CallSetFocus(document), Answer(identity), Answer(context)]
                   + ([OK] + FollowReplies(m, WhenSome(document, context), true, edit, layout)))
         == Refocused(m, Focus(document, WhenSome(document, identity), WhenSome(document, context)), edit, layout)
  {
    var focus := Focus(document, WhenSome(document, identity), WhenSome(document, context));
    var rest := [OK] + FollowReplies(m, focus.context, true, edit, layout);
    var t := m.(state := SetFocus(m.state, focus).1);
    AsksAboutFocus(m, document, identity, context);
    assert [CallSetFocus(document), Answer(identity)] + [Answer(context)] == [CallSetFocus(document), Answer(identity), Answer(context)];
    FollowsFocus(m, t, focus.context, edit, layout);
    RunAppends(m, [CallSetFocus(document), Answer(identity), Answer(context)], rest);
  }

  /** The matching document's focus cleared, and the subscriptions to be dropped, matching or not. */
  function Unfocused(m: Machine, identity: Option<nat>): Machine {
    m.(state := ClearIfIdentity(m.state, identity).1, stack := Call(Pause(Follow(None, true, Pause(Done(Ok)))), m.stack))
  }

  lemma ClearsMatching(m: Machine, identity: Option<nat>)
    ensures Advance(m, TryClear(m.state.focusGeneration, identity)) == Unfocused(m, identity)
  {
    MovesToStop(m, TryClear(m.state.focusGeneration, identity));
  }

  lemma AsksAboutUninit(m: Machine, document: Option<nat>, identity: Option<nat>)
    ensures Run(m, [CallUninitDocument(document), Answer(identity)]) == Unfocused(m, WhenSome(document, identity))
  {
    var q := UninitIdentity(m.state.focusGeneration, document);
    Answered(m, q, identity);
    ClearsMatching(m, WhenSome(document, identity));
    RunTwo(m, CallUninitDocument(document), Answer(identity));
  }

  /** From the stop at which the cleared focus is dropped to the hiding of the window. */
  lemma DropsSubscriptions(m: Machine, t: Machine)
    requires Free(m) && t == m.(state := t.state)
    ensures Run(t.(stack := Call(Pause(Follow(None, true, Pause(Done(Ok)))), m.stack)), [OK] + FollowReplies(m, None, true, 0, 0) + [OK])
         == Followed(t.(last := Ok), None, true, 0, 0)
  {
    var follow := Follow(None, true, Pause(Done(Ok)));
    var m1 := t.(stack := Call(Pause(follow), m.stack));
    var replies := FollowReplies(m, None, true, 0, 0);
    var bare := Followed(t, None, true, 0, 0);
    Returns(m1, follow, m.stack);
    assert m1.(stack := m.stack) == t;
    RunCons(m1, OK, replies);
    CalmFollow(t, None, true, 0, 0, Pause(Done(Ok)));
    RunAppends(m1, [OK] + replies, [OK]);
    Returns(bare.(stack := Call(Pause(Done(Ok)), m.stack)), Done(Ok), m.stack);
    RunOne(bare.(stack := Call(Pause(Done(Ok)), m.stack)), OK);
  }

  /** A document notification that is not re-entered. */
  function Notification(m: Machine, document: Option<nat>, identity: Option<nat>): seq<HostEvent> {
    [CallUninitDocument(document), Answer(identity)] + ([OK] + FollowReplies(m, None, true, 0, 0) + [OK])
  }

  /** When it returns, the focus is gone if it was on that document and as it was otherwise, and both
      subscriptions are gone in either case. */
  lemma CalmUninit(m: Machine, document: Option<nat>, identity: Option<nat>)
    requires Free(m)
    ensures Run(m, Notification(m, document, identity))
         == if m.state.DocumentMatches(WhenSome(document, identity)) then Refocused(m, NO_FOCUS, 0, 0)
            else Followed(m.(last := Ok), None, true, 0, 0)
  {
    var t := m.(state := ClearIfIdentity(m.state, WhenSome(document, identity)).1);
    AsksAboutUninit(m, document, identity);
    DropsSubscriptions(m, t);
    RunAppends(m, [CallUninitDocument(document), Answer(identity)], [OK] + FollowReplies(m, None, true, 0, 0) + [OK]);
  }

  /** So for an unrelated document it is a no-op exactly when nothing was subscribed; otherwise the focus stays
      and loses its subscriptions. */
  lemma UnrelatedUninitUnsubscribes(m: Machine, document: Option<nat>, identity: Option<nat>)
    requires Free(m) && !m.state.DocumentMatches(WhenSome(document, identity))
    ensures var out := Run(m, Notification(m, document, identity));
            && out.state == m.state && Vacant(out.edit) && Vacant(out.layout)
            && (out == m.(last := Ok) <==> Unsubscribed(m))
  {
    CalmUninit(m, document, identity);
    assert m.edit.advised - Bag(None) + Bag(None) == m.edit.advised;
    assert m.layout.advised - Bag(None) + Bag(None) == m.layout.advised;
  }

  /** A notification whose ticket is no longer current, because a focus update came while the host was asked
      for the identity, changes nothing at all. */
  lemma StaleUninit(m: Machine, ticket: U64, document: Option<nat>, identity: Option<nat>)
    requires ticket != m.state.focusGeneration
    ensures Step(m.(stack := Call(Ask(UninitIdentity(ticket, document)), m.stack)), Answer(identity)) == m.(last := Ok)
  {
    Answered(m, UninitIdentity(ticket, document), identity);
    assert Move(m, TryClear(ticket, WhenSome(document, identity))) == (m, Done(Ok));
    assert Advance(m, TryClear(ticket, WhenSome(document, identity))) == Advance(m, Done(Ok));
  }

  /** The other two callbacks that ask the host: an overtaken focus callback reports that, and an overtaken push
      or pop does not, and neither changes anything else. */
  lemma StaleSetFocus(m: Machine, ticket: U64, document: Option<nat>, identity: Option<nat>, context: Option<nat>)
    requires ticket != m.state.focusGeneration
    ensures Run(m.(stack := Call(Ask(FocusTop(ticket, document, identity)), m.stack)), [Answer(context), OK]) == m.(last := Unexpected)
  {
    var asked := m.(stack := Call(Ask(FocusTop(ticket, document, identity)), m.stack));
    var focus := Focus(document, identity, WhenSome(document, context));
    var refused := m.(stack := Call(Pause(Done(Unexpected)), m.stack));
    Answered(m, FocusTop(ticket, document, identity), context);
    MovesToStop(m, TryFocus(ticket, focus));
    Returns(refused, Done(Unexpected), m.stack);
    RunTwo(asked, Answer(context), OK);
  }

  lemma StaleChange(m: Machine, ticket: U64, context: Option<nat>, identity: Option<nat>, below: Option<nat>)
    requires ticket != m.state.focusGeneration
    ensures Run(m.(stack := Call(Ask(ContextBelow(ticket, context, identity)), m.stack)), [Answer(below), OK]) == m.(last := Ok)
  {
    var asked := m.(stack := Call(Ask(ContextBelow(ticket, context, identity)), m.stack));
    var refused := m.(stack := Call(Pause(Done(Ok)), m.stack));
    Answered(m, ContextBelow(ticket, context, identity), below);
    MovesToStop(m, TryContext(ticket, identity, WhenSome(context, below)));
    Returns(refused, Done(Ok), m.stack);
    RunTwo(asked, Answer(below), OK);
  }

  /** The events of a context change up to its check: a push asks for the document's identity, a pop also for the
      context below. */
  function Change(context: Option<nat>, popped: bool, identity: Option<nat>, below: Option<nat>): seq<HostEvent> {
    [CallChangeContext(context, popped), Answer(identity)] + if popped then [Answer(below)] else []
  }

  /** The context of the matching document replaced, the previous one about to be dropped. */
  function ContextChanged(m: Machine, identity: Option<nat>, offered: Option<nat>): Machine {
    var replaced := ReplaceContext(m.state, identity, offered);
    m.(state := replaced.1, stack := Call(Pause(if replaced.0.Success? then Follow(offered, true, Done(Ok)) else Done(Ok)), m.stack))
  }

  lemma ChangesMatching(m: Machine, identity: Option<nat>, offered: Option<nat>)
    ensures Advance(m, TryContext(m.state.focusGeneration, identity, offered)) == ContextChanged(m, identity, offered)
  {
    MovesToStop(m, TryContext(m.state.focusGeneration, identity, offered));
  }

  lemma AsksIdentity(m: Machine, context: Option<nat>, popped: bool)
    ensures Step(m, CallChangeContext(context, popped))
         == m.(stack := Call(Ask(ChangedIdentity(m.state.focusGeneration, context, popped)), m.stack))
  {
  }

  lemma AsksAboutPush(m: Machine, context: Option<nat>, identity: Option<nat>)
    ensures Run(m, [CallChangeContext(context, false), Answer(identity)]) == ContextChanged(m, WhenSome(context, identity), context)
  {
    AsksIdentity(m, context, false);
    Answered(m, ChangedIdentity(m.state.focusGeneration, context, false), identity);
    ChangesMatching(m, WhenSome(context, identity), context);
    RunTwo(m, CallChangeContext(context, false), Answer(identity));
  }

  lemma AsksBelow(m: Machine, context: Option<nat>, identity: Option<nat>)
    ensures Run(m, [CallChangeContext(context, true), Answer(identity)])
         == m.(stack := Call(Ask(ContextBelow(m.state.focusGeneration, context, WhenSome(context, identity))), m.stack))
  {
    var q := ChangedIdentity(m.state.focusGeneration, context, true);
    var next := ContextBelow(m.state.focusGeneration, context, WhenSome(context, identity));
    AsksIdentity(m, context, true);
    assert Resume(q, identity) == Ask(next);
    assert Step(m.(stack := Call(Ask(q), m.stack)), Answer(identity)) == m.(stack := Call(Ask(next), m.stack)) by {
      AsksNext(m, q, identity, next);
    }
    RunTwo(m, CallChangeContext(context, true), Answer(identity));
  }

  lemma AsksAboutPop(m: Machine, context: Option<nat>, identity: Option<nat>, below: Option<nat>)
    ensures Run(m, [CallChangeContext(context, true), Answer(identity)] + [Answer(below)])
         == ContextChanged(m, WhenSome(context, identity), WhenSome(context, below))
  {
    var q := ContextBelow(m.state.focusGeneration, context, WhenSome(context, identity));
    AsksBelow(m, context, identity);
    Answered(m, q, below);
    ChangesMatching(m, WhenSome(context, identity), WhenSome(context, below));
    RunAppends(m, [CallChangeContext(context, true), Answer(identity)], [Answer(below)]);
    RunOne(m.(stack := Call(Ask(q), m.stack)), Answer(below));
  }

  lemma AsksAboutChange(m: Machine, context: Option<nat>, popped: bool, identity: Option<nat>, below: Option<nat>)
    ensures Run(m, Change(context, popped, identity, below))
         == ContextChanged(m, WhenSome(context, identity), if popped then WhenSome(context, below) else context)
  {
    if popped {
      AsksAboutPop(m, context, identity, below);
    } else {
      assert Change(context, popped, identity, below) == [CallChangeContext(context, false), Answer(identity)];
      AsksAboutPush(m, context, identity);
    }
  }

  /** A context pushed or popped without re-entrancy, on the document that has the focus: when the call returns,
      the focus is on the pushed context or on the one below the popped one, and both subscriptions are to that. */
  lemma CalmChange(m: Machine, context: Option<nat>, popped: bool, identity: Option<nat>, below: Option<nat>, edit: nat, layout: nat)
    requires Free(m) && m.state.DocumentMatches(WhenSome(context, identity))
    ensures var top := if popped then WhenSome(context, below) else context;
            Run(m, Change(context, popped, identity, below) + ([OK] + FollowReplies(m, top, true, edit, layout)))
              == Refocused(m, m.state.focus.(context := top), edit, layout)
  {
    var top := if popped then WhenSome(context, below) else context;
    var t := m.(state := ReplaceContext(m.state, WhenSome(context, identity), top).1);
    AsksAboutChange(m, context, popped, identity, below);
    FollowsFocus(m, t, top, edit, layout);
    RunAppends(m, Change(context, popped, identity, below), [OK] + FollowReplies(m, top, true, edit, layout));
  }

  /** On any other document it changes nothing. */
  lemma UnrelatedChange(m: Machine, context: Option<nat>, popped: bool, identity: Option<nat>, below: Option<nat>)
    requires !m.state.DocumentMatches(WhenSome(context, identity))
    ensures Run(m, Change(context, popped, identity, below) + [OK]) == m.(last := Ok)
  {
    var top := if popped then WhenSome(context, below) else context;
    var m1 := m.(stack := Call(Pause(Done(Ok)), m.stack));
    AsksAboutChange(m, context, popped, identity, below);
    Returns(m1, Done(Ok), m.stack);
    RunAppends(m, Change(context, popped, identity, below), [OK]);
    RunOne(m1, OK);
  }

  // ---------------------------------------------------------------- a stale update that is installed

  /** The last answer of a focus callback. */
  lemma FinishesTop(m: Machine, document: Option<nat>, identity: Option<nat>, context: Option<nat>)
    ensures Step(m.(stack := Call(Ask(FocusTop(m.state.focusGeneration, document, identity)), m.stack)), Answer(context))
         == Focused(m, Focus(document, identity, WhenSome(document, context)))
  {
    Answered(m, FocusTop(m.state.focusGeneration, document, identity), context);
    SetsFocus(m, Focus(document, identity, WhenSome(document, context)));
  }

  /** The rest of a focus callback that waits for the identity of its document. */
  lemma FinishesSetFocus(m: Machine, document: Option<nat>, identity: Option<nat>, context: Option<nat>)
    ensures Run(m.(stack := Call(Ask(FocusIdentity(m.state.focusGeneration, document)), m.stack)), [Answer(identity), Answer(context)])
         == Focused(m, Focus(document, WhenSome(document, identity), WhenSome(document, context)))
  {
    FocusIdentityAnswered(m, document, identity);
    FinishesTop(m, document, WhenSome(document, identity), context);
    RunTwo(m.(stack := Call(Ask(FocusIdentity(m.state.focusGeneration, document)), m.stack)), Answer(identity), Answer(context));
  }

  /** A focus callback waits for the host while a service that has a focus and is not active is activated without
      one. The activation replaces the focus by none, and leaves the callback's ticket current: the callback
      then installs its document, although it is older. */
  lemma OlderUpdateIsInstalled(m: Machine, document: Option<nat>, identity: Option<nat>, context: Option<nat>, h: Answers)
    requires !m.state.IsLive() && Unsubscribed(m) && m.state.focus != NO_FOCUS && h.document.None?
    ensures var waiting := Step(m, CallSetFocus(document));
            var activated := Run(waiting, h.Events() + [OK, OK]);
            && activated.state.focus == NO_FOCUS && activated.state.IsActivated()
            && activated.state.focusGeneration == waiting.state.focusGeneration
            && Run(activated, [Answer(identity), Answer(context)]).state.focus
               == Focus(document, WhenSome(document, identity), WhenSome(document, context))
  {
    var waiting := m.(stack := Call(Ask(FocusIdentity(m.state.focusGeneration, document)), m.stack));
    assert Step(m, CallSetFocus(document)) == waiting;
    CalmStart(waiting, h);
    var t := h.Accepted(waiting);
    var activated := Stores(t, t.state.activationGeneration);
    var base := activated.(stack := m.stack);
    assert activated == base.(stack := Call(Ask(FocusIdentity(base.state.focusGeneration, document)), base.stack));
    FinishesSetFocus(base, document, identity, context);
  }

  /** A service gets there: a focus callback before any activation. */
  lemma FocusWithoutActivation(document: nat, identity: Option<nat>)
    ensures var m := Run(START, [CallSetFocus(Some(document)), Answer(identity), Answer(None)] + ([OK] + FollowReplies(START, None, true, 0, 0)));
            m.stack.Idle? && !m.state.IsLive() && Unsubscribed(m) && m.state.focus != NO_FOCUS
  {
    CalmSetFocus(START, Some(document), identity, None, 0, 0);
  }

  // ---------------------------------------------------------------- window and I/O thread in the wrong place

  /** An activation without a focused document, up to the attaching of the language bar and through it. */
  lemma CalmStart(m: Machine, h: Answers)
    requires !m.state.IsLive() && Unsubscribed(m) && h.document.None?
    ensures var t := h.Accepted(m);
            && Run(m, h.Events()) == t.(stack := Call(Attaching(t.state.activationGeneration), m.stack))
            && Run(m, h.Events() + [OK, OK]) == Stores(t, t.state.activationGeneration)
  {
    var t := h.Accepted(m);
    var token := t.state.activationGeneration;
    CalmActivation(m, h);
    KeepsBothUnsubscribed(t, false, Attaching(token));
    StoresCells(t.(stack := Call(Attaching(token), m.stack)), token, m.stack);
    RunAppends(m, h.Events(), [OK, OK]);
  }

  /** A deactivation while the language bar is being attached runs to its end before the activation
      stores its window, channel and I/O thread: they stay with a service that is not active. */
  lemma DeactivatedWhileAttaching(h: Answers)
    requires h.document.None?
    ensures var m := Run(START, h.Events() + DEACTIVATION + [OK, OK]);
            m.stack.Idle? && !m.state.IsLive() && m.cells == Some(1) && m.keys == multiset{} && m.sinks == multiset{}
  {
    CalmStart(START, h);
    var t := h.Accepted(START);
    var m1 := t.(stack := Call(Attaching(1), Idle));
    CalmDeactivation(m1);
    var m2 := Run(m1, DEACTIVATION);
    StoresCells(m2, 1, Idle);
    RunAppends(START, h.Events(), DEACTIVATION);
    RunAppends(START, h.Events() + DEACTIVATION, [OK, OK]);
  }

  /** What is left when an activation completes while a deactivation drops the language bar item. */
  function Overtaken(m: Machine, second: Answers): Machine {
    var t := second.Accepted(EndedBy(m));
    Clears(Stores(t, t.state.activationGeneration)).(
      stack := m.stack, keys := t.keys - multiset{m.state.clientId}, sinks := t.sinks - Bag(m.state.cookie))
  }

  lemma OvertakesEnding(m: Machine, second: Answers)
    requires Coherent(m.state) && m.state.IsActivated() && Unsubscribed(m) && second.document.None?
    ensures Run(m, [CallDeactivate] + (second.Events() + [OK, OK]) + ([OK] + UNDOING)) == Overtaken(m, second)
  {
    EndsActivation(m);
    var m2 := EndedBy(m);
    var released := Apartment.Deactivate(m.state).0;
    CalmStart(m2, second);
    var t := second.Accepted(m2);
    var m3 := Stores(t, t.state.activationGeneration);
    ClearsCells(m3, released, m.stack);
    var m4 := Clears(m3).(stack := Call(Pause(Undo(released)), m.stack));
    UndoesBoth(m4, released.value, m.stack);
    RunOne(m, CallDeactivate);
    RunCons(m3, OK, UNDOING);
    RunAppends(m, [CallDeactivate], second.Events() + [OK, OK]);
    RunAppends(m, [CallDeactivate] + (second.Events() + [OK, OK]), [OK] + UNDOING);
  }

  /** An activation while a deactivation drops the language bar item completes, and the deactivation then
      clears what it stored: the service is active without window, channel and I/O thread. */
  lemma ActivatedWhileEnding(first: Answers, second: Answers)
    requires first.document.None? && second.document.None?
    ensures var m := Run(START, first.Events() + [OK, OK] + ([CallDeactivate] + (second.Events() + [OK, OK]) + ([OK] + UNDOING)));
            m.stack.Idle? && m.state.IsActivated() && m.cells == None && m.keys == multiset{second.client} && m.sinks == multiset{second.cookie}
  {
    CalmStart(START, first);
    var m := Stores(first.Accepted(START), 1);
    OvertakesEnding(m, second);
    RunAppends(START, first.Events() + [OK, OK], [CallDeactivate] + (second.Events() + [OK, OK]) + ([OK] + UNDOING));
    assert second.Accepted(EndedBy(m)).keys - multiset{first.client} == multiset{second.client};
  }
}
