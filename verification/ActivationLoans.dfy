/** The loans of the two subscription cells over a run: which context each was taken for, which call found
    the cell on loan, and how each ended. At rest a cell holds what its last loan ended with. */
module ActivationLoans {
  import opened Wrappers
  import opened Numbers
  import opened Apartment
  import opened Activation
  import opened ActivationLedgers

  /** A replacement takes the cell, for a context or for none, or finds it on loan and skips it. A loan ends by
      keeping a cookie advised to a context, or with the cell empty. */
  datatype LoanMark = Taken(wanted: Option<nat>) | Skipped(wanted: Option<nat>) | Kept(cookie: nat, context: nat) | Returned

  // ---------------------------------------------------------------- what a run writes

  function MarkBy(m: Machine, p: Program, name: SlotName): seq<LoanMark> {
    match p
    case Replace(n, wanted, needsWindow, _) =>
      if n != name then []
      else if m.SlotOf(name).busy then [Skipped(m.Effective(wanted, needsWindow))]
      else [Taken(m.Effective(wanted, needsWindow))]
    case Do(KeepSubscription(n, cookie, context), _) => if n == name then [Kept(cookie, context)] else []
    case Do(ReturnSlot(n), _) => if n == name then [Returned] else []
    case _ => []
  }

  function Marks(m: Machine, p: Program, name: SlotName): seq<LoanMark>
    decreases Weight(p)
  {
    if Stopped(p) then [] else MarkBy(m, p, name) + Marks(Move(m, p).0, Move(m, p).1, name)
  }

  /** What an event sets going. */
  function Begun(m: Machine, event: HostEvent): (Machine, Program) {
    match event
    case Reply(ok, value) =>
      if m.stack.Idle? then (m, Done(m.last))
      else (m.(stack := m.stack.below), Resumed(m.stack.waiting, if ok then Some(value) else None))
    case CallActivate(client) =>
      var begun := Begin(m.state, client);
      if begun.0.None? then (m, Done(AlreadyExists))
      else (m.(state := begun.1), Ask(Manager(Attempt(begun.0.value, client))))
    case CallDeactivate => (m, Follow(None, false, End))
    case CallSetFocus(document) => (m, Ask(FocusIdentity(m.state.focusGeneration, document)))
    case CallUninitDocument(document) => (m, Ask(UninitIdentity(m.state.focusGeneration, document)))
    case CallChangeContext(context, popped) => (m, Ask(ChangedIdentity(m.state.focusGeneration, context, popped)))
  }

  lemma StepAdvances(m: Machine, event: HostEvent)
    ensures Step(m, event) == Advance(Begun(m, event).0, Begun(m, event).1)
  {
  }

  function RunMarks(m: Machine, events: seq<HostEvent>, name: SlotName): seq<LoanMark>
    decreases |events|
  {
    if events == [] then []
    else Marks(Begun(m, events[0]).0, Begun(m, events[0]).1, name) + RunMarks(Step(m, events[0]), events[1..], name)
  }

  // ---------------------------------------------------------------- what the marks say

  /** The last loan: never taken, out for a context or none, or over with the cookie it kept, if any. */
  datatype Last = Never | Out(wanted: Option<nat>) | Over(wanted: Option<nat>, cookie: Option<nat>)
  {
    function Cookie(): Option<nat> { if Over? then cookie else None }
    function Context(): Option<nat> { if Cookie().Some? then wanted else None }
  }

  function AfterMark(last: Last, mark: LoanMark): Last {
    match mark
    case Taken(wanted) => Out(wanted)
    case Skipped(_) => last
    case Kept(cookie, _) => if last.Out? then Over(last.wanted, Some(cookie)) else last
    case Returned => if last.Out? then Over(last.wanted, None) else last
  }

  function AfterMarks(last: Last, marks: seq<LoanMark>): Last
    decreases |marks|
  {
    if marks == [] then last else AfterMarks(AfterMark(last, marks[0]), marks[1..])
  }

  /** Loans do not overlap, and a loan keeps a cookie only for the context it was taken for. */
  predicate Fits(last: Last, mark: LoanMark) {
    match mark
    case Taken(_) => !last.Out?
    case Skipped(_) => last.Out?
    case Kept(_, context) => last == Out(Some(context))
    case Returned => last.Out?
  }

  predicate Proper(last: Last, marks: seq<LoanMark>)
    decreases |marks|
  {
    marks == [] || (Fits(last, marks[0]) && Proper(AfterMark(last, marks[0]), marks[1..]))
  }

  lemma {:induction false} MarksAppend(last: Last, first: seq<LoanMark>, second: seq<LoanMark>)
    ensures AfterMarks(last, first + second) == AfterMarks(AfterMarks(last, first), second)
    ensures Proper(last, first + second) <==> Proper(last, first) && Proper(AfterMarks(last, first), second)
    decreases |first|
  {
    if first == [] {
      assert first + second == second;
    } else {
      assert (first + second)[1..] == first[1..] + second;
      MarksAppend(AfterMark(last, first[0]), first[1..], second);
    }
  }

  // ---------------------------------------------------------------- programs

  predicate AgreesWith(action: Action, name: SlotName, wanted: Option<nat>) {
    action.KeepSubscription? && action.name == name ==> wanted == Some(action.context)
  }

  /** Whatever a program subscribes to in the cell is the context the loan was taken for. */
  predicate Agrees(p: Program, name: SlotName, wanted: Option<nat>) {
    match p
    case Do(action, next) => AgreesWith(action, name, wanted) && Agrees(next, name, wanted)
    case Pause(next) => Agrees(next, name, wanted)
    case Unadvise(action, next) => AgreesWith(action, name, wanted) && Agrees(next, name, wanted)
    case AskSource(n, context, next) => (n == name ==> wanted == Some(context)) && Agrees(next, name, wanted)
    case AskCookie(n, context, next) => (n == name ==> wanted == Some(context)) && Agrees(next, name, wanted)
    case Replace(_, _, _, next) => Agrees(next, name, wanted)
    case IfCurrent(_, yes, no) => Agrees(yes, name, wanted) && Agrees(no, name, wanted)
    case CompleteWith(_, _, _, yes, no) => Agrees(yes, name, wanted) && Agrees(no, name, wanted)
    case _ => true
  }

  predicate AgreesBelow(stack: Stack, name: SlotName, wanted: Option<nat>) {
    stack.Call? ==> Agrees(stack.waiting, name, wanted) && AgreesBelow(stack.below, name, wanted)
  }

  /** A program without a loan of the cell subscribes to nothing in it. */
  lemma WithoutLoanAgrees(p: Program, name: SlotName, s: State, wanted: Option<nat>)
    requires Accounts(p, Loan(name), 0, s)
    ensures Agrees(p, name, wanted)
  {
  }

  lemma {:induction false} WithoutLoanAgreesBelow(stack: Stack, name: SlotName, s: State, wanted: Option<nat>)
    requires Below(stack, Loan(name), 0, s)
    ensures AgreesBelow(stack, name, wanted)
  {
    if stack.Call? {
      var k :| Accounts(stack.waiting, Loan(name), k, s) && Below(stack.below, Loan(name), 0 - k, s);
      WithoutLoanAgrees(stack.waiting, name, s, wanted);
      WithoutLoanAgreesBelow(stack.below, name, s, wanted);
    }
  }

  lemma RenewAgrees(slot: SlotName, name: SlotName, cookie: Option<nat>, effective: Option<nat>, next: Program, wanted: Option<nat>)
    requires Agrees(next, name, wanted) && (slot == name ==> wanted == effective)
    ensures Agrees(Renew(slot, cookie, effective, next), name, wanted)
  {
    assert Agrees(Subscribe(slot, effective, next), name, wanted);
  }

  lemma ResumedAgrees(waiting: Program, answer: Option<nat>, name: SlotName, wanted: Option<nat>, s: State)
    requires Agrees(waiting, name, wanted) && (waiting.Ask? ==> Accounts(Resumed(waiting, answer), Loan(name), 0, s))
    ensures Agrees(Resumed(waiting, answer), name, wanted)
  {
    match waiting
    case Ask(_) => WithoutLoanAgrees(Resumed(waiting, answer), name, s, wanted);
    case Unadvise(action, next) => assert Agrees(Pause(next), name, wanted);
    case AskCookie(n, context, next) =>
      if answer.Some? {
        assert Agrees(Do(KeepSubscription(n, answer.value, context), next), name, wanted);
        assert Agrees(Resumed(waiting, answer).next, name, wanted);
      }
    case _ =>
  }

  // ---------------------------------------------------------------- steps

  /** The cell is as its last loan says. */
  predicate Mirrors(slot: Slot, last: Last) {
    slot.busy == last.Out? && slot.cookie == last.Cookie() && slot.context == last.Context()
  }

  ghost predicate Tracked(m: Machine, p: Program, name: SlotName, last: Last, bound: nat) {
    && Accounted(m, p, bound) && Mirrors(m.SlotOf(name), last)
    && (last.Out? ==> Agrees(p, name, last.wanted) && AgreesBelow(m.stack, name, last.wanted))
  }

  /** While a cell is not on loan, nothing is owed for it. */
  lemma FreeCellIsNotOwed(m: Machine, p: Program, name: SlotName, bound: nat)
    requires Accounted(m, p, bound) && !m.SlotOf(name).busy
    ensures Accounts(p, Loan(name), 0, m.state) && Below(m.stack, Loan(name), 0, m.state)
  {
    assert Balances(m, p, Loan(name));
    var n :| Balanced(m, p, Loan(name), n);
  }

  lemma TakenTracks(m: Machine, p: Program, name: SlotName, last: Last, bound: nat)
    requires p.Replace? && p.name == name && !m.SlotOf(name).busy && Tracked(m, p, name, last, bound)
    ensures Tracked(Move(m, p).0, Move(m, p).1, name, Out(m.Effective(p.wanted, p.needsWindow)), bound)
  {
    var wanted := m.Effective(p.wanted, p.needsWindow);
    FreeCellIsNotOwed(m, p, name, bound);
    WithoutLoanAgrees(p.next, name, m.state, wanted);
    WithoutLoanAgreesBelow(m.stack, name, m.state, wanted);
    RenewAgrees(name, name, m.SlotOf(name).cookie, wanted, p.next, wanted);
    MoveBalances(m, p, bound);
  }

  /** A step that writes nothing and leaves the cell alone. */
  lemma UntouchedTracks(m: Machine, p: Program, t: Machine, q: Program, name: SlotName, last: Last, bound: nat)
    requires Tracked(m, p, name, last, bound) && Accounted(t, q, bound)
    requires t.SlotOf(name) == m.SlotOf(name).(advised := t.SlotOf(name).advised) && t.stack == m.stack
    requires last.Out? ==> Agrees(q, name, last.wanted)
    ensures Tracked(t, q, name, last, bound)
  {
  }

  lemma ReplaceTracks(m: Machine, p: Program, name: SlotName, last: Last, bound: nat)
    requires p.Replace? && Tracked(m, p, name, last, bound)
    ensures Proper(last, MarkBy(m, p, name))
    ensures Tracked(Move(m, p).0, Move(m, p).1, name, AfterMarks(last, MarkBy(m, p, name)), bound)
  {
    MoveBalances(m, p, bound);
    if p.name == name && !m.SlotOf(name).busy {
      TakenTracks(m, p, name, last, bound);
    } else {
      if last.Out? && p.name != name {
        RenewAgrees(p.name, name, m.SlotOf(p.name).cookie, m.Effective(p.wanted, p.needsWindow), p.next, last.wanted);
      }
      UntouchedTracks(m, p, Move(m, p).0, Move(m, p).1, name, last, bound);
    }
  }

  /** The actions that end a loan of the cell. */
  predicate Ends(action: Action, name: SlotName) {
    (action.KeepSubscription? || action.ReturnSlot?) && action.name == name
  }

  lemma EndTracks(m: Machine, p: Program, name: SlotName, last: Last, bound: nat)
    requires p.Do? && Ends(p.action, name) && Tracked(m, p, name, last, bound)
    ensures Proper(last, MarkBy(m, p, name))
    ensures Tracked(Move(m, p).0, p.next, name, AfterMarks(last, MarkBy(m, p, name)), bound)
  {
    MoveBalances(m, p, bound);
    LoanIsOut(m, p);
    assert MarkBy(m, p, name)[1..] == [];
  }

  lemma OtherActionKeepsCell(m: Machine, action: Action, name: SlotName)
    requires !Ends(action, name)
    ensures Perform(m, action).SlotOf(name) == m.SlotOf(name).(advised := Perform(m, action).SlotOf(name).advised)
    ensures Perform(m, action).stack == m.stack
  {
  }

  lemma DoTracks(m: Machine, p: Program, name: SlotName, last: Last, bound: nat)
    requires p.Do? && Tracked(m, p, name, last, bound)
    ensures Proper(last, MarkBy(m, p, name))
    ensures Tracked(Move(m, p).0, p.next, name, AfterMarks(last, MarkBy(m, p, name)), bound)
  {
    if Ends(p.action, name) {
      EndTracks(m, p, name, last, bound);
    } else {
      MoveBalances(m, p, bound);
      OtherActionKeepsCell(m, p.action, name);
      UntouchedTracks(m, p, Move(m, p).0, p.next, name, last, bound);
    }
  }

  /** A call's own program, without a loan. */
  lemma OwnProgramAgrees(m: Machine, p: Program, name: SlotName, wanted: Option<nat>)
    requires p.End? || p.TryFocus? || p.TryClear? || p.TryContext?
    ensures Agrees(Move(m, p).1, name, wanted)
  {
    if p.End? {
      Ending(Apartment.Deactivate(m.state).0, Loan(name), m.state);
    } else {
      FocusAccounts(m, p, Loan(name), m.state);
    }
    WithoutLoanAgrees(Move(m, p).1, name, m.state, wanted);
  }

  /** Every step writes what fits, and leaves the cell as the marks say. */
  lemma MoveTracks(m: Machine, p: Program, name: SlotName, last: Last, bound: nat)
    requires !Stopped(p) && Tracked(m, p, name, last, bound)
    ensures Proper(last, MarkBy(m, p, name))
    ensures Tracked(Move(m, p).0, Move(m, p).1, name, AfterMarks(last, MarkBy(m, p, name)), bound)
  {
    if p.Replace? {
      ReplaceTracks(m, p, name, last, bound);
    } else if p.Do? {
      DoTracks(m, p, name, last, bound);
    } else {
      MoveBalances(m, p, bound);
      if last.Out? && !p.IfCurrent? && !p.CompleteWith? {
        OwnProgramAgrees(m, p, name, last.wanted);
      }
      UntouchedTracks(m, p, Move(m, p).0, Move(m, p).1, name, last, bound);
    }
  }

  lemma {:induction false} AdvanceTracks(m: Machine, p: Program, name: SlotName, last: Last, bound: nat)
    requires Tracked(m, p, name, last, bound)
    ensures Proper(last, Marks(m, p, name))
    ensures Tracked(Advance(m, p), Done(Ok), name, AfterMarks(last, Marks(m, p, name)), bound)
    decreases Weight(p)
  {
    if Stopped(p) {
      AdvanceBalances(m, p, bound);
    } else {
      var now := MarkBy(m, p, name);
      MoveTracks(m, p, name, last, bound);
      AdvanceTracks(Move(m, p).0, Move(m, p).1, name, AfterMarks(last, now), bound);
      MarksAppend(last, now, Marks(Move(m, p).0, Move(m, p).1, name));
    }
  }

  /** A reply goes on with what waited, any other event with a program that has no loan. */
  lemma BegunIsTracked(m: Machine, event: HostEvent, name: SlotName, last: Last, bound: nat)
    requires Tracked(m, Done(Ok), name, last, bound) && bound + 2 * Bit(event.CallActivate?) < U64_MODULUS
    ensures Tracked(Begun(m, event).0, Begun(m, event).1, name, last, bound + 2 * Bit(event.CallActivate?))
  {
    BegunIsAccounted(m, event, bound);
    var begun := Begun(m, event);
    if event.Reply? && m.stack.Call? && last.Out? {
      var answer := if event.ok then Some(event.value) else None;
      if m.stack.waiting.Ask? {
        AskAnswered(m, answer, name, bound);
      }
      ResumedAgrees(m.stack.waiting, answer, name, last.wanted, m.state);
    }
  }

  lemma AskAnswered(m: Machine, answer: Option<nat>, name: SlotName, bound: nat)
    requires Accounted(m, Done(Ok), bound) && m.stack.Call? && m.stack.waiting.Ask?
    ensures Accounts(Resumed(m.stack.waiting, answer), Loan(name), 0, m.state)
  {
    assert Balances(m, Done(Ok), Loan(name));
    var total := Entered(m, Loan(name)) - Held(m, Loan(name));
    var k :| Accounts(m.stack.waiting, Loan(name), k, m.state) && Below(m.stack.below, Loan(name), total - k, m.state);
    Returning(m.stack.waiting, answer, Loan(name), k, m.state);
  }

  lemma BegunIsAccounted(m: Machine, event: HostEvent, bound: nat)
    requires Accounted(m, Done(Ok), bound) && bound + 2 * Bit(event.CallActivate?) < U64_MODULUS
    ensures Accounted(Begun(m, event).0, Begun(m, event).1, bound + 2 * Bit(event.CallActivate?))
  {
    match event
    case Reply(ok, value) =>
      if m.stack.Call? {
        ReplyBalances(m, if ok then Some(value) else None, bound);
      } else {
        CallBalances(m, m, Done(m.last), bound);
      }
    case CallActivate(client) =>
      var begun := Begin(m.state, client);
      if begun.0.Some? {
        CallBalances(m, m.(state := begun.1), Ask(Manager(Attempt(begun.0.value, client))), bound);
      } else {
        CallBalances(m, m, Done(AlreadyExists), bound);
      }
    case CallDeactivate =>
      forall x: Asset ensures Accounts(Follow(None, false, End), x, 0, m.state) {
        Following(None, false, End, x, m.state);
      }
      CallBalances(m, m, Follow(None, false, End), bound);
    case CallSetFocus(document) => CallBalances(m, m, Ask(FocusIdentity(m.state.focusGeneration, document)), bound);
    case CallUninitDocument(document) => CallBalances(m, m, Ask(UninitIdentity(m.state.focusGeneration, document)), bound);
    case CallChangeContext(context, popped) =>
      CallBalances(m, m, Ask(ChangedIdentity(m.state.focusGeneration, context, popped)), bound);
  }

  lemma {:induction false} RunTracks(m: Machine, events: seq<HostEvent>, name: SlotName, last: Last, bound: nat)
    requires Tracked(m, Done(Ok), name, last, bound) && bound + 2 * Activations(events) < U64_MODULUS
    ensures Proper(last, RunMarks(m, events, name))
    ensures Tracked(Run(m, events), Done(Ok), name, AfterMarks(last, RunMarks(m, events, name)), bound + 2 * Activations(events))
    decreases |events|
  {
    if events != [] {
      var begun := Begun(m, events[0]);
      var now := bound + 2 * Bit(events[0].CallActivate?);
      var marks := Marks(begun.0, begun.1, name);
      BegunIsTracked(m, events[0], name, last, bound);
      AdvanceTracks(begun.0, begun.1, name, last, now);
      StepAdvances(m, events[0]);
      RunTracks(Step(m, events[0]), events[1..], name, AfterMarks(last, marks), now);
      MarksAppend(last, marks, RunMarks(Step(m, events[0]), events[1..], name));
    }
  }

  /** What a reply makes the topmost call write first. */
  function First(m: Machine, event: HostEvent, name: SlotName): Option<LoanMark> {
    var marks := Marks(Begun(m, event).0, Begun(m, event).1, name);
    if marks == [] then None else Some(marks[0])
  }

  /** How a loan for a context ends is the host's answers: empty if the source or the cookie is refused, and else
      with the cookie answered, once that call has returned. */
  lemma AnswersDecideLoan(m: Machine, below: Stack, name: SlotName, context: nat, next: Program, cookie: nat, value: nat, ok: bool)
    ensures var asking := m.(stack := Call(AskSource(name, context, next), below));
            && First(asking, Reply(false, value), name) == Some(Returned)
            && Step(asking, Reply(true, value)) == m.(stack := Call(AskCookie(name, context, next), below))
    ensures var asking := m.(stack := Call(AskCookie(name, context, next), below));
            && First(asking, Reply(false, value), name) == Some(Returned)
            && Step(asking, Reply(true, cookie)).stack == Call(Pause(Do(KeepSubscription(name, cookie, context), next)), below)
    ensures First(m.(stack := Call(Pause(Do(KeepSubscription(name, cookie, context), next)), below)), Reply(ok, value), name)
         == Some(Kept(cookie, context))
  {
    var asking := m.(stack := Call(AskCookie(name, context, next), below));
    var rest := m.(stack := below);
    var keep := Do(KeepSubscription(name, cookie, context), next);
    assert Step(asking, Reply(true, cookie)) == Advance(rest, Do(RecordSubscription(name, cookie), Pause(keep)));
    assert Advance(rest, Do(RecordSubscription(name, cookie), Pause(keep))) == Advance(Perform(rest, RecordSubscription(name, cookie)), Pause(keep));
  }

  /** The last loan of a run from the start. */
  function LastLoan(events: seq<HostEvent>, name: SlotName): Last {
    AfterMarks(Never, RunMarks(START, events, name))
  }

  lemma StartIsTracked(name: SlotName)
    ensures Tracked(START, Done(Ok), name, Never, 0)
  {
    StartAccounted();
  }

  /** Over every run: loans never overlap and keep nothing but what they were taken for; and whenever no call is
      on the stack, a cell holds a subscription exactly when its last loan ended by keeping a cookie, and then
      it holds that cookie, to the context that loan was taken for. */
  lemma HeldExactlyWhenLastLoanKept(events: seq<HostEvent>, name: SlotName)
    requires NoWrap(events) && Run(START, events).stack.Idle?
    ensures var slot, last := Run(START, events).SlotOf(name), LastLoan(events, name);
            && Proper(Never, RunMarks(START, events, name)) && !last.Out?
            && (slot.cookie.Some? <==> last.Over? && last.cookie.Some?)
            && (slot.cookie.Some? ==> slot.cookie == last.cookie && last.wanted.Some? && slot.context == last.wanted)
  {
    StartIsTracked(name);
    RunTracks(START, events, name, Never, 0);
    EveryBookBalances(events, Loan(name));
  }

  /** So, at rest, the subscribed context is the focused one exactly when the last loan was taken for it and kept
      a cookie, or no context has the focus and the last loan kept none. */
  lemma SubscribedToFocusExactly(events: seq<HostEvent>, name: SlotName)
    requires NoWrap(events) && Run(START, events).stack.Idle?
    ensures var m, last := Run(START, events), LastLoan(events, name);
            (m.SlotOf(name).context == m.state.focus.context)
            <==> (if last.Cookie().Some? then last.wanted == m.state.focus.context else m.state.focus.context.None?)
  {
    StartIsTracked(name);
    RunTracks(START, events, name, Never, 0);
  }
}
