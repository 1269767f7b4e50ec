/** Window, channel and I/O thread under re-entrancy: the log of an activation machine is a proper one,
    so they are where they should be exactly when no outermost stretch of the run was disturbed. */
module ActivationCells {
  import opened Wrappers
  import opened Numbers
  import opened Apartment
  import opened Publication
  import opened Activation
  import opened ActivationLedgers

  /** The stretch a program still has to close, if any. */
  predicate Closes(p: Program, mark: Option<Mark>) {
    match p
    case Do(StoreCells(token), next) => mark == Some(Published(token)) && Closes(next, None)
    case Do(ClearCells, next) => mark == Some(Ended) && Closes(next, None)
    case Do(_, next) => Closes(next, mark)
    case Pause(next) => Closes(next, mark)
    case Unadvise(action, next) => !action.StoreCells? && !action.ClearCells? && Closes(next, mark)
    case AskSource(_, _, next) => Closes(next, mark)
    case AskCookie(_, _, next) => Closes(next, mark)
    case Replace(_, _, _, next) => Closes(next, mark)
    case IfCurrent(_, yes, no) => Closes(yes, mark) && Closes(no, mark)
    case CompleteWith(h, _, _, yes, no) => mark.None? && Closes(yes, Some(Published(h.attempt.token))) && Closes(no, None)
    case _ => mark.None?
  }

  predicate Takes(open: Log, mark: Option<Mark>) { mark.Some? ==> open.After? && open.last == mark.value }

  function Without(open: Log, mark: Option<Mark>): Log { if mark.Some? then Unwound(open) else open }

  /** The waiting programs close the open stretches, innermost first. */
  ghost predicate ClosesBelow(stack: Stack, open: Log) {
    match stack
    case Idle => open.Blank?
    case Call(waiting, below) =>
      Stopped(waiting) && exists mark :: Closes(waiting, mark) && Takes(open, mark) && ClosesBelow(below, Without(open, mark))
  }

  function LiveToken(s: State): Option<nat> { if s.IsActivated() then Some(s.activationGeneration) else None }

  /** The log tells what happened. */
  predicate Recorded(s: State, cells: Option<nat>, log: Log) {
    && Proper(log) && LiveAfter(log) == LiveToken(s) && CellsAfter(log) == cells
    && (LastToken(log).Some? ==> LastToken(log).value <= s.activationGeneration)
    && (LastToken(log).Some? && s.inProgress ==> LastToken(log).value < s.activationGeneration)
  }

  ghost predicate Logged(m: Machine, p: Program, mark: Option<Mark>) {
    && Recorded(m.state, m.cells, m.log)
    && Closes(p, mark) && Takes(Open(m.log), mark) && ClosesBelow(m.stack, Without(Open(m.log), mark))
  }

  // ---------------------------------------------------------------- programs

  lemma RollBackCloses(h: Holding, next: Program)
    requires Closes(next, None)
    ensures Closes(RollBack(h, next), None)
  {
    assert Closes(RollBack(h, next).next, None);
  }

  lemma AdvisingCloses(a: Attempt, keystrokeMgr: nat, source: nat, answer: Option<nat>)
    ensures Closes(Resume(AdviseKey(a, keystrokeMgr, source), answer), None)
    ensures Closes(Resume(AdviseThread(a, keystrokeMgr, source), answer), None)
  {
    var undo := Unadvise(ForgetKey(a.client), Done(Unexpected));
    assert Closes(undo, None);
    if answer.Some? {
      var check := IfCurrent(a.token, Ask(AdviseThread(a, keystrokeMgr, source)), undo);
      assert Closes(check, None);
      assert Closes(Pause(check), None);
      var h := Holding(a, keystrokeMgr, source, answer.value);
      RollBackCloses(h, Done(Unexpected));
      var last := IfCurrent(a.token, Ask(FocusedDocument(h)), RollBack(h, Done(Unexpected)));
      assert Closes(last, None);
      assert Closes(Pause(last), None);
    } else {
      assert Closes(Do(AbortToken(a.token), Done(HostFailure)), None);
    }
  }

  lemma PublicationCloses(h: Holding, context: Option<nat>)
    ensures Closes(AfterPublication(h.attempt.token, context), Some(Published(h.attempt.token)))
  {
    var mark := Some(Published(h.attempt.token));
    var rest := Pause(Pause(Do(StoreCells(h.attempt.token), Done(Ok))));
    assert Closes(rest.next, mark);
    assert Closes(Replace(TextLayout, context, false, rest), mark);
  }

  lemma ResumeCloses(q: Question, answer: Option<nat>)
    ensures Closes(Resume(q, answer), None)
  {
    match q
    case AdviseKey(a, keystrokeMgr, source) => AdvisingCloses(a, keystrokeMgr, source, answer);
    case AdviseThread(a, keystrokeMgr, source) => AdvisingCloses(a, keystrokeMgr, source, answer);
    case FocusedDocument(h) => RollBackCloses(h, Done(Unexpected));
    case DocumentIdentity(h, _) => RollBackCloses(h, Done(Unexpected));
    case TopContext(h, _, _) => RollBackCloses(h, Done(Unexpected));
    case CreateWindow(h, focus) =>
      RollBackCloses(h, Done(NoInterface));
      RollBackCloses(h, Do(AbortToken(h.attempt.token), Done(Unexpected)));
      PublicationCloses(h, focus.context);
    case _ =>
  }

  lemma EndedCloses(released: Option<Released>)
    ensures Closes(AfterEnd(released), Some(Ended))
  {
    var undo := Undo(released);
    if released.Some? && undo.Unadvise? {
      assert Closes(undo.next, None);
    }
    assert Closes(undo, None);
    assert Closes(Do(ClearCells, Pause(undo)), Some(Ended));
  }

  lemma ReturnCloses(waiting: Program, answer: Option<nat>, mark: Option<Mark>)
    requires Stopped(waiting) && Closes(waiting, mark)
    ensures Closes(Resumed(waiting, answer), mark)
  {
    match waiting
    case Ask(q) => ResumeCloses(q, answer);
    case AskCookie(name, _, next) =>
      if answer.Some? {
        assert Closes(Resumed(waiting, answer).next.next, mark);
      }
    case Unadvise(action, next) => assert Closes(Pause(next), mark);
    case _ =>
  }

  lemma RenewCloses(name: SlotName, cookie: Option<nat>, wanted: Option<nat>, next: Program, mark: Option<Mark>)
    requires Closes(next, mark)
    ensures Closes(Renew(name, cookie, wanted, next), mark)
  {
    assert Closes(Subscribe(name, wanted, next), mark);
  }

  lemma FocusCloses(m: Machine, p: Program)
    requires p.TryFocus? || p.TryClear? || p.TryContext?
    ensures Closes(Move(m, p).1, None)
  {
    var q := Move(m, p).1;
    if q.Pause? && q.next.Replace? {
      assert Closes(q.next.next, None);
    }
  }

  // ---------------------------------------------------------------- steps

  lemma PerformLogs(m: Machine, p: Program, mark: Option<Mark>)
    requires p.Do? && Logged(m, p, mark)
    requires Room(m.state, U64_MODULUS - 1)
    ensures Logged(Perform(m, p.action), p.next, if p.action.StoreCells? || p.action.ClearCells? then None else mark)
  {
    match p.action
    case AbortToken(_) =>
    case _ =>
  }

  /** What a program has to close after a step, if it had `mark` to close before. */
  function MarkAfter(m: Machine, p: Program, mark: Option<Mark>): Option<Mark> {
    match p
    case Do(action, _) => if action.StoreCells? || action.ClearCells? then None else mark
    case CompleteWith(h, _, _, _, _) => if m.state.CanComplete(h.attempt.token) then Some(Published(h.attempt.token)) else None
    case End => Some(Ended)
    case _ => mark
  }

  lemma MoveLogs(m: Machine, p: Program, mark: Option<Mark>, bound: nat)
    requires !Stopped(p) && Room(m.state, bound) && Logged(m, p, mark)
    ensures Logged(Move(m, p).0, Move(m, p).1, MarkAfter(m, p, mark))
  {
    if p.Do? {
      PerformLogs(m, p, mark);
    } else if p.End? {
      EndedCloses(Apartment.Deactivate(m.state).0);
    } else if p.Replace? {
      RenewCloses(p.name, m.SlotOf(p.name).cookie, m.Effective(p.wanted, p.needsWindow), p.next, mark);
    } else if p.TryFocus? || p.TryClear? || p.TryContext? {
      FocusCloses(m, p);
    }
  }

  lemma {:induction false} AdvanceLogs(m: Machine, p: Program, mark: Option<Mark>, bound: nat)
    requires Room(m.state, bound) && Logged(m, p, mark)
    ensures Logged(Advance(m, p), Done(Ok), None)
    decreases Weight(p)
  {
    if !Stopped(p) {
      MoveLogs(m, p, mark, bound);
      MoveSucceeds(m, p, bound);
      AdvanceLogs(Move(m, p).0, Move(m, p).1, MarkAfter(m, p, mark), bound);
    }
  }

  lemma {:induction false} StepLogs(m: Machine, event: HostEvent, bound: nat)
    requires Room(m.state, bound) && Logged(m, Done(Ok), None)
    requires bound + 2 * Bit(event.CallActivate?) < U64_MODULUS
    ensures Logged(Step(m, event), Done(Ok), None)
  {
    match event
    case Reply(ok, value) =>
      if m.stack.Call? {
        var waiting, answer := m.stack.waiting, if ok then Some(value) else None;
        var mark :| Closes(waiting, mark) && Takes(Open(m.log), mark) && ClosesBelow(m.stack.below, Without(Open(m.log), mark));
        ReturnCloses(waiting, answer, mark);
        AdvanceLogs(m.(stack := m.stack.below), Resumed(waiting, answer), mark, bound);
      }
    case CallActivate(client) =>
      var begun := Begin(m.state, client);
      if begun.0.Some? {
        AdvanceLogs(m.(state := begun.1), Ask(Manager(Attempt(begun.0.value, client))), None, bound + 2);
      }
    case CallDeactivate =>
      assert Closes(Follow(None, false, End).next, None);
      AdvanceLogs(m, Follow(None, false, End), None, bound);
    case CallSetFocus(document) => AdvanceLogs(m, Ask(FocusIdentity(m.state.focusGeneration, document)), None, bound);
    case CallUninitDocument(document) => AdvanceLogs(m, Ask(UninitIdentity(m.state.focusGeneration, document)), None, bound);
    case CallChangeContext(context, popped) =>
      AdvanceLogs(m, Ask(ChangedIdentity(m.state.focusGeneration, context, popped)), None, bound);
  }

  lemma {:induction false} RunLogs(m: Machine, events: seq<HostEvent>, bound: nat)
    requires Accounted(m, Done(Ok), bound) && Logged(m, Done(Ok), None)
    requires bound + 2 * Activations(events) < U64_MODULUS
    ensures Logged(Run(m, events), Done(Ok), None)
    decreases |events|
  {
    if events != [] {
      StepLogs(m, events[0], bound);
      StepAccounted(m, events[0], bound);
      RunLogs(Step(m, events[0]), events[1..], bound + 2 * Bit(events[0].CallActivate?));
    }
  }

  /** Whatever the host re-enters: whenever no call is on the stack, window, channel and I/O thread are
      those of the activation that is live, and absent while none is, exactly when the last outermost
      stretch of the log was not disturbed; they are there at all exactly while the service is activated,
      when that stretch was not crossed. */
  lemma CellsMatchState(events: seq<HostEvent>)
    requires NoWrap(events) && Run(START, events).stack.Idle?
    ensures var m := Run(START, events);
            && Proper(m.log) && Open(m.log).Blank?
            && LiveAfter(m.log) == LiveToken(m.state) && CellsAfter(m.log) == m.cells
            && (m.cells == LiveToken(m.state) <==> !Disturbed(m.log))
            && (m.cells.Some? == m.state.IsActivated() <==> !Crossed(m.log))
  {
    StartAccounted();
    RunLogs(START, events, 0);
    StoredExactlyWhileLive(Run(START, events).log);
    PresentExactlyWhileLive(Run(START, events).log);
  }
}
