/** What the calls of the host leave in the fields of the service when nothing re-enters them: the focus
    from the host's own answers, and what each subscription is to. */
module ActivationOutcomes {
  import opened Wrappers
  import opened Numbers
  import opened Apartment
  import opened Publication
  import opened Activation
  import opened ActivationScripts

  // ---------------------------------------------------------------- programs that leave the state alone

  /** Up to its next stop, the program neither decides anything nor aborts an activation. */
  predicate Stateless(p: Program) {
    match p
    case Do(action, next) => !action.AbortToken? && Stateless(next)
    case Replace(_, _, _, next) => Stateless(next)
    case other => Stopped(other)
  }

  lemma {:induction false} StatelessKeepsState(m: Machine, p: Program)
    requires Stateless(p)
    ensures Advance(m, p).state == m.state
    decreases Weight(p)
  {
    if !Stopped(p) {
      var moved := Move(m, p);
      assert Advance(m, p) == Advance(moved.0, moved.1);
      StatelessKeepsState(moved.0, moved.1);
    }
  }

  // ---------------------------------------------------------------- an activation

  /** The focus is on the document the host said is focused, with the identity and the context it gave
      for it; without a document there is no focus, whatever else it answered. */
  predicate FocusedOn(state: State, document: Option<nat>, identity: Option<nat>, context: Option<nat>) {
    && state.focus.document == document
    && state.focus.identity == (match document case None => None case Some(_) => identity)
    && state.focus.context == (match document case None => None case Some(_) => context)
  }

  /** A fresh activation starts on the focus the host answered, before and after its subscriptions. */
  lemma ActivationTakesFocus(m: Machine, h: Answers)
    requires !m.state.IsLive()
    ensures FocusedOn(Run(m, h.Events()).state, h.document, h.identity, h.context)
  {
    CalmActivation(m, h);
    var t := h.Accepted(m);
    StatelessKeepsState(t, AfterPublication(t.state.activationGeneration, h.InitialFocus().context));
  }

  /** An activation and the replies to its two subscriptions, to its return. */
  function Activating(m: Machine, h: Answers, edit: nat, layout: nat): seq<HostEvent> {
    h.Events() + (FollowReplies(m, h.InitialFocus().context, false, edit, layout) + [OK, OK])
  }

  function Activated(m: Machine, h: Answers, edit: nat, layout: nat): Machine {
    var t := h.Accepted(m);
    Stores(Followed(t, h.InitialFocus().context, false, edit, layout), t.state.activationGeneration)
  }

  lemma ActivatesToReturn(m: Machine, h: Answers, edit: nat, layout: nat)
    requires !m.state.IsLive() && Free(m)
    ensures Run(m, Activating(m, h, edit, layout)) == Activated(m, h, edit, layout)
  {
    var t := h.Accepted(m);
    var token := t.state.activationGeneration;
    var context := h.InitialFocus().context;
    var replies := FollowReplies(m, context, false, edit, layout);
    var begun := Run(m, h.Events());
    var attached := Followed(t, context, false, edit, layout).(stack := Call(Attaching(token), m.stack));
    CalmActivation(m, h);
    CalmFollow(t, context, false, edit, layout, Attaching(token));
    assert AfterPublication(token, context) == Follow(context, false, Attaching(token));
    assert Run(begun, replies) == attached;
    StoresCells(attached, token, m.stack);
    RunAppends(begun, replies, [OK, OK]);
    RunAppends(m, h.Events(), replies + [OK, OK]);
  }

  /** The subscription is to the context, with the cookie the host gave for it; without one it is gone. */
  predicate SubscribedTo(slot: Slot, context: Option<nat>, cookie: nat) {
    && !slot.busy && slot.context == context
    && slot.cookie == (match context case None => None case Some(_) => Some(cookie))
  }

  /** When an activation that is not re-entered returns, the service is active on the focus the host
      answered, both subscriptions are to its context, and window, channel and I/O thread are there. */
  lemma ActivatedService(m: Machine, h: Answers, edit: nat, layout: nat)
    requires !m.state.IsLive() && Free(m)
    ensures var out := Run(m, Activating(m, h, edit, layout));
            var context := match h.document case None => None case Some(_) => h.context;
            && out.state.IsActivated() && out.state.clientId == h.client
            && FocusedOn(out.state, h.document, h.identity, h.context)
            && SubscribedTo(out.edit, context, edit) && SubscribedTo(out.layout, context, layout)
            && out.cells == Some(out.state.activationGeneration)
            && out.stack == m.stack && out.last == Ok
  {
    CalmActivation(m, h);
    ActivatesToReturn(m, h, edit, layout);
  }

  // ---------------------------------------------------------------- an activation that fails

  /** The call into the host that fails. */
  datatype FailingCall = GetKeystrokes | GetSource | AdviseKeys | AdviseSink | MakeWindow

  const FAILED := Reply(false, 0)

  /** An activation up to the failing call, and the replies to the undoing of what had been advised. */
  function FailingEvents(h: Answers, f: FailingCall): seq<HostEvent> {
    var start := [CallActivate(h.client), OK, Reply(true, h.keystrokeMgr), Reply(true, h.source)];
    match f
    case GetKeystrokes => [CallActivate(h.client), OK, FAILED]
    case GetSource => [CallActivate(h.client), OK, Reply(true, h.keystrokeMgr), FAILED]
    case AdviseKeys => start + [FAILED]
    case AdviseSink => start + ([OK, OK, FAILED] + [OK, OK])
    case MakeWindow => h.UpToWindow() + ([FAILED] + ([OK, OK] + [OK, OK]))
  }

  /** Begun and given up again. */
  function GivenUp(m: Machine, client: nat, result: Hresult): Machine {
    var begun := Begin(m.state, client).1;
    m.(state := Abort(begun, begun.activationGeneration), last := result)
  }

  lemma Aborts(m: Machine, token: U64, result: Hresult)
    ensures Advance(m, Do(AbortToken(token), Done(result))) == m.(state := Abort(m.state, token), last := result)
  {
    assert Advance(m, Do(AbortToken(token), Done(result))) == Advance(Perform(m, AbortToken(token)), Done(result));
  }

  lemma FailsBeforeAdvising(m: Machine, h: Answers, f: FailingCall)
    requires !m.state.IsLive() && (f.GetKeystrokes? || f.GetSource? || f.AdviseKeys?)
    ensures Run(m, FailingEvents(h, f)) == GivenUp(m, h.client, HostFailure)
  {
    var begun := Begin(m.state, h.client).1;
    var a := Attempt(begun.activationGeneration, h.client);
    var base := m.(state := begun);
    var m1 := base.(stack := Call(Ask(Manager(a)), m.stack));
    var m2 := base.(stack := Call(Ask(Keystroke(a)), m.stack));
    var m3 := base.(stack := Call(Ask(Source(a, h.keystrokeMgr)), m.stack));
    var m4 := base.(stack := Call(Ask(AdviseKey(a, h.keystrokeMgr, h.source)), m.stack));
    Aborts(base, a.token, HostFailure);
    Passes(m1, OK, a.token, Ask(Keystroke(a)), Done(Unexpected));
    match f
    case GetKeystrokes =>
      RunThree(m, CallActivate(h.client), OK, FAILED);
      FailsAt(base, Keystroke(a), Do(AbortToken(a.token), Done(HostFailure)));
    case GetSource =>
      Passes(m2, Reply(true, h.keystrokeMgr), a.token, Ask(Source(a, h.keystrokeMgr)), Done(Unexpected));
      RunFour(m, CallActivate(h.client), OK, Reply(true, h.keystrokeMgr), FAILED);
      FailsAt(base, Source(a, h.keystrokeMgr), Do(AbortToken(a.token), Done(HostFailure)));
    case _ =>
      AsksForBoth(m, h.client, h.keystrokeMgr, h.source);
      RunAppends(m, [CallActivate(h.client), OK, Reply(true, h.keystrokeMgr), Reply(true, h.source)], [FAILED]);
      RunOne(m4, FAILED);
      FailsAt(base, AdviseKey(a, h.keystrokeMgr, h.source), Do(AbortToken(a.token), Done(HostFailure)));
  }

  lemma FailsAt(m: Machine, q: Question, rest: Program)
    requires Resume(q, None) == rest
    ensures Step(m.(stack := Call(Ask(q), m.stack)), FAILED) == Advance(m, rest)
  {
    Answered(m, q, None);
  }

  lemma KeyIsUndone(m: Machine, a: Attempt, result: Hresult, below: Stack)
    requires m.stack == Call(Unadvise(ForgetKey(a.client), Do(AbortToken(a.token), Done(result))), below)
    ensures Run(m, [OK, OK])
         == m.(stack := below, keys := m.keys - multiset{a.client}, state := Abort(m.state, a.token), last := result)
  {
    var after := Do(AbortToken(a.token), Done(result));
    Unadvises(m, ForgetKey(a.client), after, below);
    Aborts(Perform(m, ForgetKey(a.client)).(stack := below), a.token, result);
  }

  /** From the asking for the key sink to the failing of the thread sink. */
  lemma SinkIsRefused(m: Machine, a: Attempt, keystrokeMgr: nat, source: nat)
    requires m.state.CanComplete(a.token)
    ensures Run(m.(stack := Call(Ask(AdviseKey(a, keystrokeMgr, source)), m.stack)), [OK, OK, FAILED])
         == m.(keys := m.keys + multiset{a.client},
               stack := Call(Unadvise(ForgetKey(a.client), Do(AbortToken(a.token), Done(HostFailure))), m.stack))
  {
    var check := IfCurrent(a.token, Ask(AdviseThread(a, keystrokeMgr, source)), Unadvise(ForgetKey(a.client), Done(Unexpected)));
    var asked := m.(stack := Call(Ask(AdviseKey(a, keystrokeMgr, source)), m.stack));
    var keyed := m.(keys := m.keys + multiset{a.client});
    Records(asked, OK, RecordKey(a.client), check);
    Passes(keyed.(stack := Call(Pause(check), m.stack)), OK, a.token, check.yes, check.no);
    FailsAt(keyed, AdviseThread(a, keystrokeMgr, source), Unadvise(ForgetKey(a.client), Do(AbortToken(a.token), Done(HostFailure))));
    RunThree(asked, OK, OK, FAILED);
  }

  lemma FailsAdvisingSink(m: Machine, h: Answers)
    requires !m.state.IsLive()
    ensures Run(m, FailingEvents(h, AdviseSink)) == GivenUp(m, h.client, HostFailure)
  {
    var a := h.Held(m).attempt;
    var base := m.(state := Begin(m.state, h.client).1);
    var start := [CallActivate(h.client), OK, Reply(true, h.keystrokeMgr), Reply(true, h.source)];
    var asked := base.(stack := Call(Ask(AdviseKey(a, h.keystrokeMgr, h.source)), m.stack));
    var refused := Run(asked, [OK, OK, FAILED]);
    AsksForBoth(m, h.client, h.keystrokeMgr, h.source);
    SinkIsRefused(base, a, h.keystrokeMgr, h.source);
    KeyIsUndone(refused, a, HostFailure, m.stack);
    RunAppends(asked, [OK, OK, FAILED], [OK, OK]);
    RunAppends(m, start, [OK, OK, FAILED] + [OK, OK]);
    assert m.keys + multiset{a.client} - multiset{a.client} == m.keys;
  }

  lemma ForgetsAdvised(m: Machine, h: Answers)
    ensures h.Advised(m).(sinks := h.Advised(m).sinks - multiset{h.cookie}, keys := h.Advised(m).keys - multiset{h.client},
                          state := Abort(h.Advised(m).state, h.Held(m).attempt.token), last := Unexpected)
         == GivenUp(m, h.client, Unexpected)
  {
    assert m.keys + multiset{h.client} - multiset{h.client} == m.keys;
    assert m.sinks + multiset{h.cookie} - multiset{h.cookie} == m.sinks;
  }

  lemma FailsMakingWindow(m: Machine, h: Answers)
    requires !m.state.IsLive()
    ensures Run(m, FailingEvents(h, MakeWindow)) == GivenUp(m, h.client, Unexpected)
  {
    ReachesWindow(m, h);
    UndoesFailedWindow(h.Advised(m), h.Held(m), h.InitialFocus());
    ForgetsAdvised(m, h);
    RunAppends(m, h.UpToWindow(), [FAILED] + ([OK, OK] + [OK, OK]));
  }

  lemma UndoesFailedWindow(m: Machine, h: Holding, focus: Focus)
    ensures Run(m.(stack := Call(Ask(CreateWindow(h, focus)), m.stack)), [FAILED] + ([OK, OK] + [OK, OK]))
         == m.(sinks := m.sinks - multiset{h.cookie}, keys := m.keys - multiset{h.attempt.client},
               state := Abort(m.state, h.attempt.token), last := Unexpected)
  {
    var asked := m.(stack := Call(Ask(CreateWindow(h, focus)), m.stack));
    var key := Unadvise(ForgetKey(h.attempt.client), Do(AbortToken(h.attempt.token), Done(Unexpected)));
    var both := Unadvise(ForgetSink(h.cookie), key);
    var m1 := m.(stack := Call(both, m.stack));
    var m2 := m.(sinks := m.sinks - multiset{h.cookie}, stack := Call(key, m.stack));
    FailsAt(m, CreateWindow(h, focus), both);
    Unadvises(m1, ForgetSink(h.cookie), key, m.stack);
    KeyIsUndone(m2, h.attempt, Unexpected, m.stack);
    RunCons(asked, FAILED, [OK, OK] + [OK, OK]);
    RunAppends(m1, [OK, OK], [OK, OK]);
  }

  /** Whichever call an activation fails at, nothing of it is left: no sink and no cell, whatever had been
      advised by then, and the service can be activated again. */
  lemma FailedActivationLeavesNothing(m: Machine, h: Answers, f: FailingCall)
    requires !m.state.IsLive()
    ensures var out := Run(m, FailingEvents(h, f));
            && out.keys == m.keys && out.sinks == m.sinks && out.edit == m.edit && out.layout == m.layout
            && out.cells == m.cells && out.stack == m.stack
            && !out.state.IsLive() && !out.state.keyAdmission
            && out.state.focus == m.state.focus.(identity := None)
            && out.last == if f.MakeWindow? then Unexpected else HostFailure
  {
    match f
    case AdviseSink => FailsAdvisingSink(m, h);
    case MakeWindow => FailsMakingWindow(m, h);
    case _ => FailsBeforeAdvising(m, h, f);
  }

  /** A live service refuses to be activated again, and nothing happens to it. */
  lemma SecondActivationIsRefused(m: Machine, client: nat)
    requires m.state.IsLive()
    ensures Step(m, CallActivate(client)) == m.(last := AlreadyExists)
  {
  }

  // ---------------------------------------------------------------- an activation that was ended meanwhile

  /** Before anything is advised. */
  predicate Unadvised(q: Question) { q.Manager? || q.Keystroke? || q.Source? }

  /** After both sinks are, and before the focus is settled. */
  function HoldingOf(q: Question): Option<Holding> {
    match q
    case FocusedDocument(h) => Some(h)
    case DocumentIdentity(h, _) => Some(h)
    case TopContext(h, _, _) => Some(h)
    case _ => None
  }

  /** An activation that finds itself ended when the host answers asks nothing further. What it had not advised
      yet it does not undo. */
  lemma EndedBeforeAdvising(m: Machine, q: Question, answer: Option<nat>)
    requires Unadvised(q) && !m.state.CanComplete(q.a.token)
    ensures Advance(m, Resume(q, answer)) == m.(last := if answer.None? && !q.Manager? then HostFailure else Unexpected)
  {
    var p := Resume(q, answer);
    if answer.None? && !q.Manager? {
      Aborts(m, q.a.token, HostFailure);
    } else {
      assert Advance(m, p) == Advance(m, Done(Unexpected));
    }
  }

  /** What it had advised it undoes, the thread sink first. */
  lemma EndedAfterAdvising(m: Machine, q: Question, answer: Option<nat>)
    requires HoldingOf(q).Some? && !m.state.CanComplete(HoldingOf(q).value.attempt.token)
    ensures var h := HoldingOf(q).value;
            && Run(Advance(m, Resume(q, answer)), [OK, OK]).sinks == m.sinks - multiset{h.cookie}
            && Run(Advance(m, Resume(q, answer)), [OK, OK]).keys == m.keys
            && Run(Advance(m, Resume(q, answer)), [OK, OK] + [OK, OK])
               == m.(sinks := m.sinks - multiset{h.cookie}, keys := m.keys - multiset{h.attempt.client}, last := Unexpected)
  {
    var h := HoldingOf(q).value;
    var undo := RollBack(h, Done(Unexpected));
    assert Advance(m, Resume(q, answer)) == Advance(m, undo);
    RollsBack(m, h);
  }

  lemma RollsBackSink(m: Machine, h: Holding)
    ensures Run(Advance(m, RollBack(h, Done(Unexpected))), [OK, OK])
         == m.(sinks := m.sinks - multiset{h.cookie}, stack := Call(Unadvise(ForgetKey(h.attempt.client), Done(Unexpected)), m.stack))
  {
    var key := Unadvise(ForgetKey(h.attempt.client), Done(Unexpected));
    var m1 := m.(stack := Call(Unadvise(ForgetSink(h.cookie), key), m.stack));
    Unadvises(m1, ForgetSink(h.cookie), key, m.stack);
  }

  lemma RollsBack(m: Machine, h: Holding)
    ensures var rolling := Advance(m, RollBack(h, Done(Unexpected)));
            && Run(rolling, [OK, OK]).sinks == m.sinks - multiset{h.cookie} && Run(rolling, [OK, OK]).keys == m.keys
            && Run(rolling, [OK, OK] + [OK, OK])
               == m.(sinks := m.sinks - multiset{h.cookie}, keys := m.keys - multiset{h.attempt.client}, last := Unexpected)
  {
    var key := Unadvise(ForgetKey(h.attempt.client), Done(Unexpected));
    var m2 := m.(sinks := m.sinks - multiset{h.cookie}, stack := Call(key, m.stack));
    RollsBackSink(m, h);
    Unadvises(m2, ForgetKey(h.attempt.client), Done(Unexpected), m.stack);
    RunAppends(Advance(m, RollBack(h, Done(Unexpected))), [OK, OK], [OK, OK]);
  }

  // ---------------------------------------------------------------- focus callbacks

  /** The layout subscription of a focus callback is made only while there is a window. */
  function WhileWindow(cells: Option<nat>, context: Option<nat>): Option<nat> {
    match cells case None => None case Some(_) => context
  }

  /** A document that gets the focus has it with the host's own answers. */
  lemma SetFocusOutcome(m: Machine, document: Option<nat>, identity: Option<nat>, context: Option<nat>, edit: nat, layout: nat)
    requires Free(m)
    ensures var top := match document case None => None case Some(_) => context;
            var out := Run(m, [CallSetFocus(document), Answer(identity), Answer(context)]
                              + ([OK] + FollowReplies(m, top, true, edit, layout)));
            && FocusedOn(out.state, document, identity, context)
            && SubscribedTo(out.edit, top, edit) && SubscribedTo(out.layout, WhileWindow(m.cells, top), layout)
            && out.stack == m.stack
  {
    CalmSetFocus(m, document, identity, context, edit, layout);
  }

  /** A focused document that goes away leaves no focus and no subscription; another one's going away
      leaves the focus. */
  lemma UninitOutcome(m: Machine, document: nat, identity: nat)
    requires Free(m)
    ensures var out := Run(m, Notification(m, Some(document), Some(identity)));
            && (if m.state.focus.identity == Some(identity) then FocusedOn(out.state, None, None, None)
                else out.state == m.state)
            && SubscribedTo(out.edit, None, 0) && SubscribedTo(out.layout, None, 0)
            && out.stack == m.stack
  {
    CalmUninit(m, Some(document), Some(identity));
  }

  /** A context pushed on the focused document takes the focus, and a popped one gives it to the context
      below; document and identity stay, and both subscriptions follow. */
  lemma ChangeOutcome(m: Machine, context: nat, popped: bool, identity: nat, below: Option<nat>, edit: nat, layout: nat)
    requires Free(m) && m.state.focus.identity == Some(identity)
    ensures var top := if popped then below else Some(context);
            var out := Run(m, Change(Some(context), popped, Some(identity), below) + ([OK] + FollowReplies(m, top, true, edit, layout)));
            && out.state.focus == Focus(m.state.focus.document, Some(identity), top)
            && SubscribedTo(out.edit, top, edit) && SubscribedTo(out.layout, WhileWindow(m.cells, top), layout)
            && out.stack == m.stack
  {
    CalmChange(m, Some(context), popped, Some(identity), below, edit, layout);
  }

  /** The identity an activation records is the one later notifications match: a context pushed on the
      document it started with takes the focus, and both subscriptions follow it. */
  lemma PushAfterActivation(
    m: Machine, h: Answers, edit: nat, layout: nat, document: nat, identity: nat, context: nat, edit': nat, layout': nat)
    requires !m.state.IsLive() && Free(m)
    requires h.document == Some(document) && h.identity == Some(identity)
    ensures var active := Run(m, Activating(m, h, edit, layout));
            var out := Run(active, Change(Some(context), false, Some(identity), None)
                                   + ([OK] + FollowReplies(active, Some(context), true, edit', layout')));
            && FocusedOn(out.state, Some(document), Some(identity), Some(context))
            && SubscribedTo(out.edit, Some(context), edit') && SubscribedTo(out.layout, Some(context), layout')
            && out.state.IsActivated() && out.stack == m.stack
  {
    ActivatedService(m, h, edit, layout);
    ActivatesToReturn(m, h, edit, layout);
    var active := Activated(m, h, edit, layout);
    CalmChange(active, Some(context), false, Some(identity), None, edit', layout');
  }

  /** And when that document goes away, the focus goes. */
  lemma UninitAfterActivation(m: Machine, h: Answers, edit: nat, layout: nat, document: nat, identity: nat)
    requires !m.state.IsLive() && Free(m)
    requires h.document == Some(document) && h.identity == Some(identity)
    ensures var active := Run(m, Activating(m, h, edit, layout));
            var out := Run(active, Notification(active, Some(document), Some(identity)));
            && FocusedOn(out.state, None, None, None) && SubscribedTo(out.edit, None, 0) && SubscribedTo(out.layout, None, 0)
            && out.state.IsActivated() && out.stack == m.stack
  {
    ActivatedService(m, h, edit, layout);
    ActivatesToReturn(m, h, edit, layout);
    var active := Activated(m, h, edit, layout);
    CalmUninit(active, Some(document), Some(identity));
  }
}
