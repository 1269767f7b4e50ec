/** What the subscription cells hold: the log of their loans, the context each is subscribed to, and what a
    deactivation leaves in them. */
module ActivationSubscriptions {
  import opened Wrappers
  import opened Numbers
  import opened Apartment
  import opened Activation
  import opened ActivationLedgers
  import opened ActivationScripts
  import opened ActivationLoans

  // ---------------------------------------------------------------- cells

  lemma MoveIsTidy(m: Machine, p: Program)
    requires !Stopped(p) && Tidy(m)
    ensures Tidy(Move(m, p).0)
  {
  }

  lemma {:induction false} AdvanceIsTidy(m: Machine, p: Program)
    requires Tidy(m)
    ensures Tidy(Advance(m, p))
    decreases Weight(p)
  {
    if !Stopped(p) {
      MoveIsTidy(m, p);
      AdvanceIsTidy(Move(m, p).0, Move(m, p).1);
    }
  }

  lemma StepIsTidy(m: Machine, event: HostEvent)
    requires Tidy(m)
    ensures Tidy(Step(m, event))
  {
    match event
    case Reply(ok, value) =>
      if m.stack.Call? {
        AdvanceIsTidy(m.(stack := m.stack.below), Resumed(m.stack.waiting, if ok then Some(value) else None));
      }
    case CallActivate(client) =>
      var begun := Begin(m.state, client);
      if begun.0.Some? {
        AdvanceIsTidy(m.(state := begun.1), Ask(Manager(Attempt(begun.0.value, client))));
      }
    case CallDeactivate => AdvanceIsTidy(m, Follow(None, false, End));
    case CallSetFocus(document) => AdvanceIsTidy(m, Ask(FocusIdentity(m.state.focusGeneration, document)));
    case CallUninitDocument(document) => AdvanceIsTidy(m, Ask(UninitIdentity(m.state.focusGeneration, document)));
    case CallChangeContext(context, popped) =>
      AdvanceIsTidy(m, Ask(ChangedIdentity(m.state.focusGeneration, context, popped)));
  }

  /** An emptied cell stays empty to the next stop: nothing is subscribed before an outside call. */
  lemma SweepEmpties(m: Machine, name: SlotName, next: Program)
    requires Tidy(m) && (next == End || (name.TextEdit? && next == SWEEP))
    ensures Advance(m, Replace(name, None, false, next)).SlotOf(name).cookie.None?
  {
    if m.SlotOf(name).cookie.None? {
      KeepsUnsubscribed(m, name, false, next);
      NextKeepsEmpty(m, name, next);
    } else {
      UnadvisesFirst(m, name, next);
    }
  }

  /** A cell with a cookie is on loan at the next stop. */
  lemma UnadvisesFirst(m: Machine, name: SlotName, next: Program)
    requires !m.SlotOf(name).busy && m.SlotOf(name).cookie.Some?
    ensures Advance(m, Replace(name, None, false, next))
         == Borrow(m, name).(stack := Call(Renew(name, m.SlotOf(name).cookie, None, next), m.stack))
  {
    MovesToStop(m, Replace(name, None, false, next));
  }

  /** The end of a deactivation, and its replacement of the other cell. */
  const SWEEP := Replace(TextLayout, None, false, End)

  lemma EndKeepsCells(m: Machine)
    ensures Advance(m, End).edit == m.edit && Advance(m, End).layout == m.layout
  {
    assert Advance(m, End) == Advance(Move(m, End).0, Move(m, End).1);
  }

  lemma NextKeepsEmpty(m: Machine, name: SlotName, next: Program)
    requires Tidy(m) && m.SlotOf(name).cookie.None? && (next == End || (name.TextEdit? && next == SWEEP))
    ensures Advance(m, next).SlotOf(name).cookie.None?
  {
    EndKeepsCells(m);
    if next == SWEEP {
      if m.layout.cookie.None? {
        KeepsUnsubscribed(m, TextLayout, false, End);
      } else {
        UnadvisesFirst(m, TextLayout, End);
      }
    }
  }

  // ---------------------------------------------------------------- a deactivation that has not come to the layout cell

  predicate WillSweep(p: Program) {
    p == SWEEP ||
    match p
    case Do(_, next) => WillSweep(next)
    case Pause(next) => WillSweep(next)
    case Unadvise(_, next) => WillSweep(next)
    case AskSource(_, _, next) => WillSweep(next)
    case AskCookie(_, _, next) => WillSweep(next)
    case Replace(_, _, _, next) => WillSweep(next)
    case _ => false
  }

  predicate SweepWaits(stack: Stack) {
    stack.Call? && (WillSweep(stack.waiting) || SweepWaits(stack.below))
  }

  lemma {:induction false} AdvanceKeepsWaiting(m: Machine, p: Program)
    requires SweepWaits(m.stack)
    ensures SweepWaits(Advance(m, p).stack)
    decreases Weight(p)
  {
    if !Stopped(p) {
      assert Move(m, p).0.stack == m.stack;
      AdvanceKeepsWaiting(Move(m, p).0, Move(m, p).1);
    }
  }

  lemma RenewWillSweep(name: SlotName, cookie: Option<nat>, wanted: Option<nat>, next: Program)
    requires WillSweep(next)
    ensures WillSweep(Renew(name, cookie, wanted, next))
  {
    assert WillSweep(Subscribe(name, wanted, next));
  }

  lemma {:induction false} AdvanceSweeps(m: Machine, p: Program)
    requires Tidy(m) && WillSweep(p)
    ensures Advance(m, p).layout.cookie.None? || SweepWaits(Advance(m, p).stack)
    decreases Weight(p)
  {
    if p == SWEEP {
      SweepEmpties(m, TextLayout, End);
    } else if !Stopped(p) {
      if p.Replace? {
        RenewWillSweep(p.name, m.SlotOf(p.name).cookie, m.Effective(p.wanted, p.needsWindow), p.next);
      }
      MoveIsTidy(m, p);
      AdvanceSweeps(Move(m, p).0, Move(m, p).1);
    }
  }

  lemma ResumedWillSweep(waiting: Program, answer: Option<nat>)
    requires WillSweep(waiting)
    ensures WillSweep(Resumed(waiting, answer))
  {
    if waiting.Unadvise? {
      assert WillSweep(Pause(waiting.next));
    } else if waiting.AskCookie? && answer.Some? {
      assert WillSweep(Do(KeepSubscription(waiting.name, answer.value, waiting.context), waiting.next));
      assert WillSweep(Resumed(waiting, answer).next);
    }
  }

  lemma StepSweeps(m: Machine, event: HostEvent)
    requires Tidy(m) && SweepWaits(m.stack)
    ensures Step(m, event).layout.cookie.None? || SweepWaits(Step(m, event).stack)
  {
    match event
    case Reply(ok, value) =>
      var answer := if ok then Some(value) else None;
      var rest := m.(stack := m.stack.below);
      if WillSweep(m.stack.waiting) {
        ResumedWillSweep(m.stack.waiting, answer);
        AdvanceSweeps(rest, Resumed(m.stack.waiting, answer));
      } else {
        AdvanceKeepsWaiting(rest, Resumed(m.stack.waiting, answer));
      }
    case CallActivate(client) =>
      var begun := Begin(m.state, client);
      if begun.0.Some? {
        AdvanceKeepsWaiting(m.(state := begun.1), Ask(Manager(Attempt(begun.0.value, client))));
      }
    case CallDeactivate => AdvanceKeepsWaiting(m, Follow(None, false, End));
    case CallSetFocus(document) => AdvanceKeepsWaiting(m, Ask(FocusIdentity(m.state.focusGeneration, document)));
    case CallUninitDocument(document) => AdvanceKeepsWaiting(m, Ask(UninitIdentity(m.state.focusGeneration, document)));
    case CallChangeContext(context, popped) =>
      AdvanceKeepsWaiting(m, Ask(ChangedIdentity(m.state.focusGeneration, context, popped)));
  }

  /** A deactivation empties the text-edit cell at once, and the layout cell at once or when it comes to it. */
  lemma DeactivateSweeps(m: Machine)
    requires Tidy(m)
    ensures var t := Step(m, CallDeactivate); t.edit.cookie.None? && (t.layout.cookie.None? || SweepWaits(t.stack))
  {
    var p := Follow(None, false, End);
    assert p == Replace(TextEdit, None, false, SWEEP);
    SweepEmpties(m, TextEdit, SWEEP);
    AdvanceSweeps(m, p);
  }

  // ---------------------------------------------------------------- runs

  /** The cell of a subscription after the first `k` events. */
  function CookieAt(m: Machine, events: seq<HostEvent>, k: nat, name: SlotName): Option<nat>
    requires k <= |events|
  {
    Run(m, events[..k]).SlotOf(name).cookie
  }

  lemma CookieAtTail(m: Machine, events: seq<HostEvent>, k: nat, name: SlotName)
    requires 0 < k <= |events|
    ensures CookieAt(m, events, k, name) == CookieAt(Step(m, events[0]), events[1..], k - 1, name)
  {
    assert events[..k][0] == events[0] && events[..k][1..] == events[1..][..k - 1];
  }

  /** The cell is empty at some moment from the `from`-th event on. */
  ghost predicate EmptyFrom(m: Machine, events: seq<HostEvent>, from: nat, name: SlotName) {
    exists k :: from <= k <= |events| && CookieAt(m, events, k, name).None?
  }

  lemma EmptyFromTail(m: Machine, events: seq<HostEvent>, from: nat, name: SlotName)
    requires events != [] && EmptyFrom(Step(m, events[0]), events[1..], from, name)
    ensures EmptyFrom(m, events, from + 1, name)
  {
    var k :| from <= k <= |events[1..]| && CookieAt(Step(m, events[0]), events[1..], k, name).None?;
    CookieAtTail(m, events, k + 1, name);
  }

  lemma EmptyNow(m: Machine, events: seq<HostEvent>, name: SlotName)
    requires m.SlotOf(name).cookie.None?
    ensures EmptyFrom(m, events, 0, name)
  {
    assert events[..0] == [];
    assert CookieAt(m, events, 0, name).None?;
  }

  /** A sweep that waits takes place before every call has returned. */
  lemma {:induction false} WaitingSweeps(m: Machine, events: seq<HostEvent>)
    requires Tidy(m) && (m.layout.cookie.None? || SweepWaits(m.stack)) && Run(m, events).stack.Idle?
    ensures EmptyFrom(m, events, 0, TextLayout)
    decreases |events|
  {
    if m.layout.cookie.None? {
      EmptyNow(m, events, TextLayout);
    } else {
      StepSweeps(m, events[0]);
      StepIsTidy(m, events[0]);
      WaitingSweeps(Step(m, events[0]), events[1..]);
      EmptyFromTail(m, events, 0, TextLayout);
    }
  }

  lemma FirstEmptiesCells(m: Machine, events: seq<HostEvent>, name: SlotName)
    requires Tidy(m) && events != [] && events[0].CallDeactivate? && Run(m, events).stack.Idle?
    ensures EmptyFrom(Step(m, events[0]), events[1..], 0, name)
  {
    DeactivateSweeps(m);
    StepIsTidy(m, events[0]);
    if name.TextEdit? {
      EmptyNow(Step(m, events[0]), events[1..], name);
    } else {
      WaitingSweeps(Step(m, events[0]), events[1..]);
    }
  }

  /** Whatever re-enters it, a deactivation takes every subscription it finds: each cell is empty at some moment
      after it was called. The cells must be tidy, as they are from the start of every run. */
  lemma {:induction false} DeactivationEmptiesCells(m: Machine, events: seq<HostEvent>, j: nat, name: SlotName)
    requires Tidy(m) && j < |events| && events[j].CallDeactivate? && Run(m, events).stack.Idle?
    ensures exists k :: j < k <= |events| && CookieAt(m, events, k, name).None?
    decreases |events|
  {
    if j > 0 {
      StepIsTidy(m, events[0]);
      DeactivationEmptiesCells(Step(m, events[0]), events[1..], j - 1, name);
      assert EmptyFrom(Step(m, events[0]), events[1..], j, name);
    } else {
      FirstEmptiesCells(m, events, name);
    }
    EmptyFromTail(m, events, j, name);
  }

  // ---------------------------------------------------------------- what is held after a deactivation

  lemma {:induction false} RunMarksAppend(m: Machine, first: seq<HostEvent>, second: seq<HostEvent>, name: SlotName)
    ensures RunMarks(m, first + second, name) == RunMarks(m, first, name) + RunMarks(Run(m, first), second, name)
    decreases |first|
  {
    if first == [] {
      assert first + second == second;
    } else {
      assert (first + second)[1..] == first[1..] + second;
      RunMarksAppend(Step(m, first[0]), first[1..], second, name);
    }
  }

  lemma {:induction false} ActivationsAppend(first: seq<HostEvent>, second: seq<HostEvent>)
    ensures Activations(first + second) == Activations(first) + Activations(second)
  {
    if first == [] {
      assert first + second == second;
    } else {
      assert (first + second)[1..] == first[1..] + second;
      ActivationsAppend(first[1..], second);
    }
  }

  /** Some loan is taken for a context. */
  predicate Wanting(marks: seq<LoanMark>) {
    exists i :: 0 <= i < |marks| && marks[i].Taken? && marks[i].wanted.Some?
  }

  lemma WantingParts(first: seq<LoanMark>, second: seq<LoanMark>)
    ensures Wanting(first) || Wanting(second) ==> Wanting(first + second)
  {
    if i :| 0 <= i < |first| && first[i].Taken? && first[i].wanted.Some? {
      assert (first + second)[i] == first[i];
    }
    if i :| 0 <= i < |second| && second[i].Taken? && second[i].wanted.Some? {
      assert (first + second)[|first| + i] == second[i];
    }
  }

  /** Nothing is kept, and nothing will be by the loan that is out, if any. */
  predicate Empty(last: Last) { last.Cookie().None? && (last.Out? ==> last.wanted.None?) }

  /** Without another loan for a context, an empty cell stays empty, and a loan that is out for one was out
      before. */
  lemma {:induction false} WithoutWanting(last: Last, marks: seq<LoanMark>)
    requires ActivationLoans.Proper(last, marks) && !Wanting(marks)
    ensures Empty(last) ==> Empty(AfterMarks(last, marks))
    ensures AfterMarks(last, marks).Out? && AfterMarks(last, marks).wanted.Some? ==> last.Out?
    decreases |marks|
  {
    if marks != [] {
      assert marks == [marks[0]] + marks[1..];
      WantingParts([marks[0]], marks[1..]);
      assert [marks[0]][0] == marks[0];
      WithoutWanting(AfterMark(last, marks[0]), marks[1..]);
    }
  }

  /** From a moment at which a cell is empty on, with no loan for a context out and none taken later. */
  lemma StaysEmpty(m: Machine, events: seq<HostEvent>, name: SlotName, last: Last, bound: nat)
    requires Tracked(m, Done(Ok), name, last, bound) && bound + 2 * Activations(events) < U64_MODULUS
    requires Empty(last) && !Wanting(RunMarks(m, events, name))
    ensures Run(m, events).SlotOf(name).cookie.None?
  {
    RunTracks(m, events, name, last, bound);
    WithoutWanting(last, RunMarks(m, events, name));
  }

  /** From a moment with the cell empty, after a first part of the run. */
  lemma HeldFromEmpty(m: Machine, first: seq<HostEvent>, second: seq<HostEvent>, name: SlotName, last: Last, bound: nat)
    requires Tracked(m, Done(Ok), name, last, bound) && bound + 2 * Activations(first) + 2 * Activations(second) < U64_MODULUS
    requires Run(m, first).SlotOf(name).cookie.None?
    requires !m.SlotOf(name).busy && !Wanting(RunMarks(m, first, name)) && !Wanting(RunMarks(Run(m, first), second, name))
    ensures Run(Run(m, first), second).SlotOf(name).cookie.None?
  {
    RunTracks(m, first, name, last, bound);
    WithoutWanting(last, RunMarks(m, first, name));
    StaysEmpty(Run(m, first), second, name, AfterMarks(last, RunMarks(m, first, name)), bound + 2 * Activations(first));
  }

  lemma HeldWasOutOrWanted(m: Machine, events: seq<HostEvent>, name: SlotName, last: Last, bound: nat)
    requires Tracked(m, Done(Ok), name, last, bound) && bound + 2 * Activations(events) < U64_MODULUS
    requires events != [] && events[0].CallDeactivate? && Run(m, events).stack.Idle?
    ensures Run(m, events).SlotOf(name).cookie.Some? ==> m.SlotOf(name).busy || Wanting(RunMarks(m, events, name))
  {
    DeactivationEmptiesCells(m, events, 0, name);
    var k :| 0 < k <= |events| && CookieAt(m, events, k, name).None?;
    var first, second := events[..k], events[k..];
    assert events == first + second;
    ActivationsAppend(first, second);
    RunMarksAppend(m, first, second, name);
    RunAppends(m, first, second);
    WantingParts(RunMarks(m, first, name), RunMarks(Run(m, first), second, name));
    if !m.SlotOf(name).busy && !Wanting(RunMarks(m, events, name)) {
      HeldFromEmpty(m, first, second, name, last, bound);
    }
  }

  /** Over every run, whatever re-enters: a subscription held at rest after a deactivation is there because the
      cell was on loan when that was called, and so skipped, or because a loan was taken for a context since. */
  lemma HeldAfterDeactivation(events: seq<HostEvent>, j: nat, name: SlotName)
    requires NoWrap(events) && j < |events| && events[j].CallDeactivate? && Run(START, events).stack.Idle?
    ensures var m := Run(START, events[..j]);
            Run(START, events).SlotOf(name).cookie.Some? ==> m.SlotOf(name).busy || Wanting(RunMarks(m, events[j..], name))
  {
    var first, second := events[..j], events[j..];
    assert events == first + second;
    ActivationsAppend(first, second);
    RunAppends(START, first, second);
    StartIsTracked(name);
    RunTracks(START, first, name, Never, 0);
    HeldWasOutOrWanted(Run(START, first), second, name, LastLoan(first, name), 2 * Activations(first));
  }

  // ---------------------------------------------------------------- a quiet deactivation

  /** A program that takes no loan for a context. */
  predicate WantsNothing(p: Program) {
    match p
    case Do(_, next) => WantsNothing(next)
    case Pause(next) => WantsNothing(next)
    case Unadvise(_, next) => WantsNothing(next)
    case AskSource(_, _, next) => WantsNothing(next)
    case AskCookie(_, _, next) => WantsNothing(next)
    case Replace(_, wanted, _, next) => wanted.None? && WantsNothing(next)
    case Ask(q) => q.UninitIdentity?
    case Done(_) => true
    case End => true
    case TryClear(_, _) => true
    case _ => false
  }

  predicate WantsNothingBelow(stack: Stack) {
    stack.Call? ==> WantsNothing(stack.waiting) && WantsNothingBelow(stack.below)
  }

  lemma UndoWantsNothing(released: Option<Released>)
    ensures WantsNothing(AfterEnd(released))
  {
    var undo := Undo(released);
    if undo.Unadvise? {
      assert WantsNothing(undo.next);
    }
    assert WantsNothing(Pause(undo));
    assert WantsNothing(AfterEnd(released).next);
  }

  lemma MoveWantsNothing(m: Machine, p: Program, name: SlotName)
    requires !Stopped(p) && WantsNothing(p)
    ensures WantsNothing(Move(m, p).1) && !Wanting(MarkBy(m, p, name)) && Move(m, p).0.stack == m.stack
  {
    if p.End? {
      UndoWantsNothing(Apartment.Deactivate(m.state).0);
    } else if p.Replace? {
      assert WantsNothing(Subscribe(p.name, None, p.next));
    } else if p.TryClear? {
      assert WantsNothing(Replace(TextLayout, None, true, Pause(Done(Ok))));
      assert WantsNothing(Follow(None, true, Pause(Done(Ok))));
    }
  }

  lemma {:induction false} AdvanceWantsNothing(m: Machine, p: Program, name: SlotName)
    requires WantsNothing(p) && WantsNothingBelow(m.stack)
    ensures WantsNothingBelow(Advance(m, p).stack) && !Wanting(Marks(m, p, name))
    decreases Weight(p)
  {
    if !Stopped(p) {
      MoveWantsNothing(m, p, name);
      AdvanceWantsNothing(Move(m, p).0, Move(m, p).1, name);
      NeitherWants(MarkBy(m, p, name), Marks(Move(m, p).0, Move(m, p).1, name));
    }
  }

  lemma NeitherWants(first: seq<LoanMark>, second: seq<LoanMark>)
    requires !Wanting(first) && !Wanting(second)
    ensures !Wanting(first + second)
  {
    assert forall i :: 0 <= i < |first + second| ==>
             (first + second)[i] == if i < |first| then first[i] else second[i - |first|];
  }

  /** A reply, another deactivation, or the notification that a document goes away. */
  predicate Quiet(event: HostEvent) { event.Reply? || event.CallDeactivate? || event.CallUninitDocument? }

  lemma BegunWantsNothing(m: Machine, event: HostEvent)
    requires Quiet(event) && WantsNothingBelow(m.stack)
    ensures WantsNothing(Begun(m, event).1) && WantsNothingBelow(Begun(m, event).0.stack)
  {
    match event
    case Reply(ok, value) =>
      if m.stack.Call? {
        var waiting := m.stack.waiting;
        if waiting.Unadvise? {
          assert WantsNothing(Pause(waiting.next));
        } else if waiting.AskCookie? && ok {
          assert WantsNothing(Do(KeepSubscription(waiting.name, value, waiting.context), waiting.next));
          assert WantsNothing(Resumed(waiting, Some(value)).next);
        }
      }
    case CallDeactivate => assert WantsNothing(Replace(TextLayout, None, false, End));
    case CallUninitDocument(_) =>
  }

  lemma {:induction false} RunWantsNothing(m: Machine, events: seq<HostEvent>, name: SlotName)
    requires WantsNothingBelow(m.stack) && forall i :: 0 <= i < |events| ==> Quiet(events[i])
    ensures !Wanting(RunMarks(m, events, name))
    decreases |events|
  {
    if events != [] {
      var begun := Begun(m, events[0]);
      assert Quiet(events[0]);
      BegunWantsNothing(m, events[0]);
      AdvanceWantsNothing(begun.0, begun.1, name);
      StepAdvances(m, events[0]);
      RunWantsNothing(Step(m, events[0]), events[1..], name);
      NeitherWants(Marks(begun.0, begun.1, name), RunMarks(Step(m, events[0]), events[1..], name));
    }
  }

  /** A deactivation called with no other call on the stack, and followed by no activation, no focus callback and
      no context change, leaves both cells empty when every call has returned. */
  lemma QuietDeactivationLeavesNothing(events: seq<HostEvent>, j: nat, name: SlotName)
    requires NoWrap(events) && j < |events| && events[j].CallDeactivate?
    requires Run(START, events[..j]).stack.Idle? && Run(START, events).stack.Idle?
    requires forall i :: j < i < |events| ==> Quiet(events[i])
    ensures Run(START, events).SlotOf(name).cookie.None?
  {
    var m := Run(START, events[..j]);
    assert events == events[..j] + events[j..];
    ActivationsAppend(events[..j], events[j..]);
    EveryBookBalances(events[..j], Loan(name));
    forall i | 0 <= i < |events[j..]| ensures Quiet(events[j..][i]) {
      assert events[j..][i] == events[j + i];
    }
    RunWantsNothing(m, events[j..], name);
    HeldAfterDeactivation(events, j, name);
  }

  // ---------------------------------------------------------------- a subscription that outlives its activation

  /** After the text-edit subscription of an activation: the layout subscription, and then the language bar. */
  function AfterEdit(token: U64, context: nat): Program { Replace(TextLayout, Some(context), false, Attaching(token)) }

  lemma StartsSubscribing(m: Machine, token: U64, context: nat)
    requires !m.edit.busy && Vacant(m.edit)
    ensures Advance(m, AfterPublication(token, Some(context)))
         == Borrow(m, TextEdit).(stack := Call(AskSource(TextEdit, context, AfterEdit(token, context)), m.stack))
  {
    var p := AfterPublication(token, Some(context));
    assert p == Replace(TextEdit, Some(context), false, AfterEdit(token, context));
    MovesToStop(m, p);
  }

  /** The activation accepted, its text-edit source found, and its cookie asked for. */
  lemma AsksForCookie(h: Answers)
    requires h.document.Some? && h.context.Some?
    ensures Run(START, h.Events() + [OK])
         == Borrow(h.Accepted(START), TextEdit).(stack := Call(AskCookie(TextEdit, h.context.value, AfterEdit(1, h.context.value)), Idle))
  {
    var t := h.Accepted(START);
    CalmActivation(START, h);
    StartsSubscribing(t, 1, h.context.value);
    RunAppends(START, h.Events(), [OK]);
    RunOne(Borrow(t, TextEdit).(stack := Call(AskSource(TextEdit, h.context.value, AfterEdit(1, h.context.value)), Idle)), OK);
  }

  /** A deactivation while the text-edit sink is being advised finds the cell on loan and leaves it. The
      activation then keeps the cookie, and goes on to subscribe to the layout as well: both stay advised for a
      service that is not active. */
  lemma DeactivatedWhileSubscribing(h: Answers, edit: nat, layout: nat)
    requires h.document.Some? && h.context.Some?
    ensures var m := Run(START, h.Events() + [OK] + DEACTIVATION + [Reply(true, edit), OK] + [OK, Reply(true, layout), OK] + [OK, OK]);
            && m.stack.Idle? && !m.state.IsLive() && m.state.focus.context == None
            && m.edit == Slot(false, Some(edit), h.context, multiset{edit})
            && m.layout == Slot(false, Some(layout), h.context, multiset{layout})
  {
    var before := h.Events() + [OK];
    var context := h.context.value;
    AsksForCookie(h);
    var m1 := Run(START, before);
    CalmDeactivation(m1);
    var m2 := Run(m1, DEACTIVATION);
    KeepsAdvised(m2, TextEdit, context, edit, AfterEdit(1, context), Idle);
    var m3 := Keeping(m2.(stack := Idle), TextEdit, context, edit);
    CalmReplacement(m3, TextLayout, Some(context), false, layout, Attaching(1));
    assert Replies(None, Some(context), layout) == [OK, Reply(true, layout), OK];
    var m4 := m3.WithSlot(TextLayout, Resubscribed(m3.layout, Some(context), layout)).(stack := Call(Attaching(1), Idle));
    StoresCells(m4, 1, Idle);
    RunAppends(START, before, DEACTIVATION);
    RunAppends(START, before + DEACTIVATION, [Reply(true, edit), OK]);
    RunAppends(START, before + DEACTIVATION + [Reply(true, edit), OK], [OK, Reply(true, layout), OK]);
    RunAppends(START, before + DEACTIVATION + [Reply(true, edit), OK] + [OK, Reply(true, layout), OK], [OK, OK]);
  }

  // ---------------------------------------------------------------- a subscription to a context that lost the focus

  /** A focus callback whose text-edit source is being asked for, in a service without a window. */
  function OnLoan(m: Machine, focus: Focus, context: nat): Machine {
    Borrow(m.(state := SetFocus(m.state, focus).1), TextEdit).(
      stack := Call(AskSource(TextEdit, context, Replace(TextLayout, Some(context), true, Done(Ok))), m.stack))
  }

  lemma TakesLoan(m: Machine, focus: Focus)
    requires Free(m) && Unsubscribed(m) && focus.context.Some?
    ensures Step(Focused(m, focus), OK) == OnLoan(m, focus, focus.context.value)
  {
    var t := m.(state := SetFocus(m.state, focus).1);
    var p := Follow(focus.context, true, Done(Ok));
    Returns(Focused(m, focus), p, m.stack);
    assert Focused(m, focus).(stack := m.stack) == t;
    MovesToStop(t, p);
  }

  /** With the text-edit cell on loan and no window, a replacement of both cells does nothing. */
  lemma SkipsBoth(m: Machine, context: Option<nat>)
    requires m.edit.busy && Vacant(m.layout) && m.cells.None?
    ensures Advance(m, Follow(context, true, Done(Ok))) == m.(last := Ok)
  {
    var second := Replace(TextLayout, context, true, Done(Ok));
    assert Advance(m, Follow(context, true, Done(Ok))) == Advance(m, second);
    LayoutNeedsWindow(m, context);
  }

  lemma LayoutNeedsWindow(m: Machine, context: Option<nat>)
    requires Vacant(m.layout) && m.cells.None?
    ensures Advance(m, Replace(TextLayout, context, true, Done(Ok))) == m.(last := Ok)
  {
    if !m.layout.busy {
      var borrowed := Borrow(m, TextLayout);
      assert Perform(borrowed, ReturnSlot(TextLayout)) == m;
      assert Advance(borrowed, Do(ReturnSlot(TextLayout), Done(Ok))) == Advance(m, Done(Ok));
    }
  }

  /** A focus callback that runs while another one has the cell on loan sets its focus and skips the cell. The
      other then advises the context it came with: the focus is on `b` and the subscription to that of `a`. */
  lemma FocusMovedDuringLoan(m: Machine, a: Focus, b: Focus, cookie: nat)
    requires Free(m) && Unsubscribed(m) && m.cells.None? && a.document.Some? && a.context.Some? && b.document.Some?
    ensures var inner := [CallSetFocus(b.document), Answer(b.identity), Answer(b.context)] + [OK];
            var out := Run(m, [CallSetFocus(a.document), Answer(a.identity), Answer(a.context)] + [OK] + inner + [OK, Reply(true, cookie), OK]);
            out.state.focus == b && out.edit.cookie == Some(cookie) && out.edit.context == a.context && out.stack == m.stack
  {
    var outer := [CallSetFocus(a.document), Answer(a.identity), Answer(a.context)];
    var second := [CallSetFocus(b.document), Answer(b.identity), Answer(b.context)];
    var next := Replace(TextLayout, a.context, true, Done(Ok));
    AsksAboutFocus(m, a.document, a.identity, a.context);
    assert [CallSetFocus(a.document), Answer(a.identity)] + [Answer(a.context)] == outer;
    TakesLoan(m, a);
    RunOne(Focused(m, a), OK);
    var m1 := OnLoan(m, a, a.context.value);
    AsksAboutFocus(m1, b.document, b.identity, b.context);
    assert [CallSetFocus(b.document), Answer(b.identity)] + [Answer(b.context)] == second;
    Returns(Focused(m1, b), Follow(b.context, true, Done(Ok)), m1.stack);
    var m2 := Focused(m1, b).(stack := m1.stack);
    SkipsBoth(m2, b.context);
    RunOne(Focused(m1, b), OK);
    var m3 := m2.(last := Ok);
    KeepsCookie(m3, TextEdit, a.context.value, cookie, next, m.stack);
    LayoutNeedsWindow(Keeping(m3.(stack := m.stack), TextEdit, a.context.value, cookie), a.context);
    RunAppends(m, outer, [OK]);
    RunAppends(m1, second, [OK]);
    RunAppends(m, outer + [OK], second + [OK]);
    RunAppends(m, outer + [OK] + (second + [OK]), [OK, Reply(true, cookie), OK]);
  }

  /** Nor is it enough that no focus change falls into a loan: a focus callback that runs to its end while another
      one drops the previous focus, before that takes the cells, is followed by the older replacement. The focus
      is on `b`, and both subscriptions, made last, are to the context of `a`. */
  lemma OlderReplacementComesLast(m: Machine, a: Focus, b: Focus, edit: nat, layout: nat)
    requires Free(m) && a.document.Some? && b.document.Some?
    ensures var dropping := Run(m, [CallSetFocus(a.document), Answer(a.identity), Answer(a.context)]);
            var inner := [CallSetFocus(b.document), Answer(b.identity), Answer(b.context)]
                         + ([OK] + FollowReplies(dropping, b.context, true, edit, layout));
            var between := Run(dropping, inner);
            var out := Run(between, [OK] + FollowReplies(between, a.context, true, edit, layout));
            out.stack == m.stack && out.state.focus == b && out.edit.context == a.context && Free(out)
  {
    AsksAboutFocus(m, a.document, a.identity, a.context);
    assert [CallSetFocus(a.document), Answer(a.identity)] + [Answer(a.context)]
        == [CallSetFocus(a.document), Answer(a.identity), Answer(a.context)];
    var dropping := Focused(m, a);
    CalmSetFocus(dropping, b.document, b.identity, b.context, edit, layout);
    var between := Refocused(dropping, b, edit, layout);
    var base := between.(stack := m.stack);
    FollowsFocus(base, base, a.context, edit, layout);
  }
}
