/** What holds of an activation whatever the host re-enters: the sinks and the subscriptions advised at
    the host, the loans of the subscription cells, and window, channel and I/O thread. */
module ActivationLedgers {
  import opened Wrappers
  import opened Numbers
  import opened Apartment
  import opened Publication
  import opened Activation

  // ---------------------------------------------------------------- the activation state

  /** The generation stays below a bound that only the beginning of an activation raises. */
  predicate Room(s: State, bound: nat) {
    && Coherent(s)
    && s.activationGeneration + (if s.IsLive() then 1 else 0) <= bound < U64_MODULUS
  }

  /** An activation in progress goes by the client id it was begun with. */
  predicate Mine(a: Attempt, s: State) {
    a.token <= s.activationGeneration && (s.CanComplete(a.token) ==> a.client == s.clientId)
  }

  // ---------------------------------------------------------------- assets

  /** What is accounted for: each advised sink and subscription, and the loan of each cell. */
  datatype Asset = KeySink(client: nat) | ThreadSink(cookie: nat) | Subscription(name: SlotName, cookie: nat) | Loan(name: SlotName)

  function Bit(b: bool): (n: int)
    ensures 0 <= n <= 1
  {
    if b then 1 else 0
  }

  /** How often an asset stands in the host's books, and how often it is held between calls: by the state,
      which a deactivation undoes, or by its cell. */
  function Entered(m: Machine, x: Asset): nat {
    match x
    case KeySink(client) => m.keys[client]
    case ThreadSink(cookie) => m.sinks[cookie]
    case Subscription(name, cookie) => m.SlotOf(name).advised[cookie]
    case Loan(name) => Bit(m.SlotOf(name).busy)
  }

  function Held(m: Machine, x: Asset): (n: int)
    ensures 0 <= n <= 1
  {
    match x
    case KeySink(client) => Bit(m.state.keystrokeMgr.Some? && m.state.clientId == client)
    case ThreadSink(cookie) => Bit(m.state.cookie == Some(cookie))
    case Subscription(name, cookie) => Bit(m.SlotOf(name).cookie == Some(cookie))
    case Loan(_) => 0
  }

  /** What an action adds to the things its program answers for, or takes from them. */
  function Change(action: Action, x: Asset): int {
    match action
    case RecordKey(client) => Bit(x == KeySink(client))
    case ForgetKey(client) => -Bit(x == KeySink(client))
    case RecordSink(cookie) => Bit(x == ThreadSink(cookie))
    case ForgetSink(cookie) => -Bit(x == ThreadSink(cookie))
    case RecordSubscription(name, cookie) => Bit(x == Subscription(name, cookie))
    case ForgetSubscription(name, cookie) => -Bit(x == Subscription(name, cookie))
    case KeepSubscription(name, cookie, _) => -Bit(x == Subscription(name, cookie)) - Bit(x == Loan(name))
    case ReturnSlot(name) => -Bit(x == Loan(name))
    case _ => 0
  }

  function Both(h: Holding, x: Asset): int {
    Bit(x == KeySink(h.attempt.client)) + Bit(x == ThreadSink(h.cookie))
  }

  /** What is owed while a question is open, and the attempt it belongs to. */
  function OwedAt(q: Question, x: Asset): int {
    match q
    case AdviseThread(a, _, _) => Bit(x == KeySink(a.client))
    case FocusedDocument(h) => Both(h, x)
    case DocumentIdentity(h, _) => Both(h, x)
    case TopContext(h, _, _) => Both(h, x)
    case CreateWindow(h, _) => Both(h, x)
    case _ => 0
  }

  function AttemptOf(q: Question): Option<Attempt> {
    match q
    case Manager(a) => Some(a)
    case Keystroke(a) => Some(a)
    case Source(a, _) => Some(a)
    case AdviseKey(a, _, _) => Some(a)
    case AdviseThread(a, _, _) => Some(a)
    case FocusedDocument(h) => Some(h.attempt)
    case DocumentIdentity(h, _) => Some(h.attempt)
    case TopContext(h, _, _) => Some(h.attempt)
    case CreateWindow(h, _) => Some(h.attempt)
    case _ => None
  }

  /** A program that answers for `n` of an asset, whichever way its checks go: it undoes them, hands them
      to the state or to a cell, or returns them. Its attempt was begun as it says. */
  predicate Accounts(p: Program, x: Asset, n: int, s: State) {
    && n >= 0
    && match p
       case Do(action, next) => Accounts(next, x, n + Change(action, x), s)
       case Unadvise(action, next) => Accounts(next, x, n + Change(action, x), s)
       case Pause(next) => Accounts(next, x, n, s)
       case Ask(q) => n == OwedAt(q, x) && (AttemptOf(q).Some? ==> Mine(AttemptOf(q).value, s))
       case AskSource(name, _, next) => Accounts(next, x, n - Bit(x == Loan(name)), s)
       case AskCookie(name, _, next) => Accounts(next, x, n - Bit(x == Loan(name)), s)
       case IfCurrent(_, yes, no) => Accounts(yes, x, n, s) && Accounts(no, x, n, s)
       case CompleteWith(h, _, _, yes, no) => Mine(h.attempt, s) && Accounts(yes, x, n - Both(h, x), s) && Accounts(no, x, n, s)
       case Replace(_, _, _, next) => Accounts(next, x, n, s)
       case _ => n == 0
  }

  lemma RollingBack(h: Holding, next: Program, x: Asset, s: State)
    requires Accounts(next, x, 0, s)
    ensures Accounts(RollBack(h, next), x, Both(h, x), s)
  {
    assert Accounts(Unadvise(ForgetKey(h.attempt.client), next), x, Bit(x == KeySink(h.attempt.client)), s);
  }

  lemma Following(wanted: Option<nat>, needsWindow: bool, next: Program, x: Asset, s: State)
    requires Accounts(next, x, 0, s)
    ensures Accounts(Follow(wanted, needsWindow, next), x, 0, s)
  {
    assert Accounts(Follow(wanted, needsWindow, next).next, x, 0, s);
  }

  lemma Publishing(token: U64, context: Option<nat>, x: Asset, s: State)
    ensures Accounts(AfterPublication(token, context), x, 0, s)
  {
    var p := Do(StoreCells(token), Done(Ok));
    assert Accounts(p, x, 0, s);
    assert Accounts(Pause(Pause(p)), x, 0, s);
    Following(context, false, Pause(Pause(p)), x, s);
  }

  /** What `begin_deactivation` took out of the state. */
  function Recovered(released: Option<Released>, x: Asset): int {
    if released.None? then 0
    else
      Bit(released.value.keystrokeMgr.Some? && x == KeySink(released.value.clientId))
      + Bit(released.value.source.Some? && released.value.cookie.Some? && x == ThreadSink(released.value.cookie.value))
  }

  lemma Undoing(released: Option<Released>, x: Asset, s: State)
    ensures Accounts(Undo(released), x, Recovered(released, x), s)
  {
    assert Accounts(Done(Ok), x, 0, s);
    if released.Some? {
      var r := released.value;
      var keys := if r.keystrokeMgr.Some? then Unadvise(ForgetKey(r.clientId), Done(Ok)) else Done(Ok);
      assert Accounts(keys, x, Bit(r.keystrokeMgr.Some? && x == KeySink(r.clientId)), s);
      if r.source.Some? && r.cookie.Some? {
        assert Undo(released) == Unadvise(ForgetSink(r.cookie.value), keys);
      } else {
        assert Undo(released) == keys;
      }
    }
  }

  lemma Ending(released: Option<Released>, x: Asset, s: State)
    ensures Accounts(AfterEnd(released), x, Recovered(released, x), s)
  {
    Undoing(released, x, s);
    var undo := Pause(Undo(released));
    assert Accounts(undo, x, Recovered(released, x), s);
    assert Accounts(Do(ClearCells, undo), x, Recovered(released, x), s);
  }

  lemma Renewing(name: SlotName, cookie: Option<nat>, wanted: Option<nat>, next: Program, x: Asset, n: int, s: State)
    requires Accounts(next, x, n, s)
    ensures Accounts(Renew(name, cookie, wanted, next), x,
                     n + Bit(x == Loan(name)) + Bit(cookie.Some? && x == Subscription(name, cookie.value)), s)
  {
    assert Accounts(Subscribe(name, wanted, next), x, n + Bit(x == Loan(name)), s);
  }

  lemma AdvisingKey(a: Attempt, keystrokeMgr: nat, source: nat, answer: Option<nat>, x: Asset, s: State)
    requires Mine(a, s)
    ensures Accounts(Resume(AdviseKey(a, keystrokeMgr, source), answer), x, 0, s)
  {
    if answer.Some? {
      var check := IfCurrent(a.token, Ask(AdviseThread(a, keystrokeMgr, source)), Unadvise(ForgetKey(a.client), Done(Unexpected)));
      assert Accounts(check.no, x, Bit(x == KeySink(a.client)), s);
      assert Accounts(check, x, Bit(x == KeySink(a.client)), s);
      assert Accounts(Pause(check), x, Bit(x == KeySink(a.client)), s);
    }
  }

  lemma AdvisingThread(a: Attempt, keystrokeMgr: nat, source: nat, answer: Option<nat>, x: Asset, s: State)
    requires Mine(a, s)
    ensures Accounts(Resume(AdviseThread(a, keystrokeMgr, source), answer), x, Bit(x == KeySink(a.client)), s)
  {
    if answer.Some? {
      var h := Holding(a, keystrokeMgr, source, answer.value);
      RollingBack(h, Done(Unexpected), x, s);
      var check := IfCurrent(a.token, Ask(FocusedDocument(h)), RollBack(h, Done(Unexpected)));
      assert Accounts(check, x, Both(h, x), s);
      assert Accounts(Pause(check), x, Both(h, x), s);
    } else {
      assert Accounts(Do(AbortToken(a.token), Done(HostFailure)), x, 0, s);
    }
  }

  lemma Checking(h: Holding, q: Question, x: Asset, s: State)
    requires Mine(h.attempt, s) && AttemptOf(q) == Some(h.attempt) && OwedAt(q, x) == Both(h, x)
    ensures Accounts(IfCurrent(h.attempt.token, Ask(q), RollBack(h, Done(Unexpected))), x, Both(h, x), s)
  {
    RollingBack(h, Done(Unexpected), x, s);
  }

  lemma Completing(h: Holding, focus: Focus, answer: Option<nat>, x: Asset, s: State)
    requires Mine(h.attempt, s)
    ensures Accounts(Resume(CreateWindow(h, focus), answer), x, Both(h, x), s)
  {
    RollingBack(h, Done(NoInterface), x, s);
    assert Accounts(Do(AbortToken(h.attempt.token), Done(Unexpected)), x, 0, s);
    RollingBack(h, Do(AbortToken(h.attempt.token), Done(Unexpected)), x, s);
    Publishing(h.attempt.token, focus.context, x, s);
  }

  lemma Resuming(q: Question, answer: Option<nat>, x: Asset, s: State)
    requires Accounts(Ask(q), x, OwedAt(q, x), s)
    ensures Accounts(Resume(q, answer), x, OwedAt(q, x), s)
  {
    match q
    case AdviseKey(a, keystrokeMgr, source) => AdvisingKey(a, keystrokeMgr, source, answer, x, s);
    case AdviseThread(a, keystrokeMgr, source) => AdvisingThread(a, keystrokeMgr, source, answer, x, s);
    case FocusedDocument(h) => Checking(h, DocumentIdentity(h, answer), x, s);
    case DocumentIdentity(h, document) => Checking(h, TopContext(h, document, answer), x, s);
    case TopContext(h, document, identity) => Checking(h, CreateWindow(h, FirstFocus(document, identity, answer)), x, s);
    case CreateWindow(h, focus) => Completing(h, focus, answer, x, s);
    case _ =>
  }

  lemma Returning(waiting: Program, answer: Option<nat>, x: Asset, n: int, s: State)
    requires Accounts(waiting, x, n, s)
    ensures Accounts(Resumed(waiting, answer), x, n, s)
  {
    match waiting
    case Ask(q) => Resuming(q, answer, x, s);
    case AskCookie(name, context, next) =>
      if answer.Some? {
        var keep := Do(KeepSubscription(name, answer.value, context), next);
        assert Accounts(Pause(keep), x, n + Bit(x == Subscription(name, answer.value)), s);
      }
    case Unadvise(action, next) => assert Accounts(Pause(next), x, n + Change(action, x), s);
    case _ =>
  }

  // ---------------------------------------------------------------- the accounts of a machine

  /** The waiting programs together answer for `n` of an asset. */
  ghost predicate Below(stack: Stack, x: Asset, n: int, s: State) {
    && n >= 0
    && match stack
       case Idle => n == 0
       case Call(waiting, below) => Stopped(waiting) && exists k :: Accounts(waiting, x, k, s) && Below(below, x, n - k, s)
  }

  /** What the host has on its books is what the service holds and what the running program and the waiting
      ones answer for. */
  ghost predicate Balanced(m: Machine, p: Program, x: Asset, n: int) {
    Accounts(p, x, n, m.state) && Below(m.stack, x, Entered(m, x) - Held(m, x) - n, m.state)
  }

  /** Nothing is in a cell while it is on loan, and a cookie is there with the context it was advised to. */
  predicate Neat(slot: Slot) {
    (slot.busy ==> slot.cookie.None?) && (slot.cookie.Some? <==> slot.context.Some?)
  }

  predicate Tidy(m: Machine) {
    Neat(m.edit) && Neat(m.layout)
  }

  ghost predicate Balances(m: Machine, p: Program, x: Asset) { exists n :: Balanced(m, p, x, n) }

  ghost predicate Accounted(m: Machine, p: Program, bound: nat) {
    Room(m.state, bound) && Tidy(m) && forall x: Asset :: Balances(m, p, x)
  }

  /** The activation state moves on. */
  predicate Succeeds(s: State, t: State) {
    && s.activationGeneration <= t.activationGeneration
    && (t.inProgress && t.activationGeneration == s.activationGeneration ==> s.inProgress && t.clientId == s.clientId)
  }

  lemma AccountsPersist(p: Program, x: Asset, n: int, s: State, t: State)
    requires Accounts(p, x, n, s) && Succeeds(s, t)
    ensures Accounts(p, x, n, t)
  {
  }

  lemma {:induction false} BelowPersists(stack: Stack, x: Asset, n: int, s: State, t: State)
    requires Below(stack, x, n, s) && Succeeds(s, t)
    ensures Below(stack, x, n, t)
  {
    if stack.Call? {
      var k :| Accounts(stack.waiting, x, k, s) && Below(stack.below, x, n - k, s);
      AccountsPersist(stack.waiting, x, k, s, t);
      BelowPersists(stack.below, x, n - k, s, t);
    }
  }

  lemma MoveSucceeds(m: Machine, p: Program, bound: nat)
    requires !Stopped(p) && Room(m.state, bound)
    ensures var t := Move(m, p).0; Room(t.state, bound) && Succeeds(m.state, t.state) && t.stack == m.stack
  {
  }

  /** An action changes what stands in the books, less what is held, by what it does to its program. */
  predicate Tallies(m: Machine, t: Machine, x: Asset, change: int) {
    Tidy(t) && Entered(t, x) - Held(t, x) == Entered(m, x) - Held(m, x) + change
  }

  lemma SinkTallies(m: Machine, action: Action, x: Asset)
    requires Tidy(m) && (x.KeySink? || x.ThreadSink?)
    requires action.RecordKey? || action.ForgetKey? || action.RecordSink? || action.ForgetSink?
    requires Entered(m, x) + Change(action, x) >= 0
    ensures Tallies(m, Perform(m, action), x, Change(action, x))
  {
  }

  lemma SlotTallies(m: Machine, name: SlotName, slot: Slot, x: Asset)
    requires Tidy(m) && Neat(slot)
    ensures Tallies(m, m.WithSlot(name, slot), x,
              match x
              case Subscription(n, c) =>
                if n == name then slot.advised[c] - Bit(slot.cookie == Some(c)) - m.SlotOf(name).advised[c] + Bit(m.SlotOf(name).cookie == Some(c))
                else 0
              case Loan(n) => if n == name then Bit(slot.busy) - Bit(m.SlotOf(name).busy) else 0
              case _ => 0)
  {
  }

  /** What an action does to a cell. */
  lemma SlotActions(m: Machine, action: Action)
    requires action.RecordSubscription? || action.ForgetSubscription? || action.KeepSubscription? || action.ReturnSlot?
    ensures var slot := m.SlotOf(action.name);
            Perform(m, action) == m.WithSlot(action.name,
              match action
              case RecordSubscription(_, cookie) => slot.(advised := slot.advised + multiset{cookie})
              case ForgetSubscription(_, cookie) => slot.(advised := slot.advised - multiset{cookie})
              case KeepSubscription(_, cookie, context) => slot.(busy := false, cookie := Some(cookie), context := Some(context))
              case _ => slot.(busy := false))
  {
  }

  /** One cookie more or less in the host's book of a cell. */
  lemma BookTallies(m: Machine, name: SlotName, cookie: nat, more: bool, x: Asset)
    requires Tidy(m)
    requires x == Subscription(name, cookie) && !more ==> Entered(m, x) >= 1
    ensures var slot := m.SlotOf(name);
            var book := if more then slot.advised + multiset{cookie} else slot.advised - multiset{cookie};
            var bit := Bit(x == Subscription(name, cookie));
            Tallies(m, m.WithSlot(name, slot.(advised := book)), x, if more then bit else -bit)
  {
    var slot := m.SlotOf(name);
    var book := if more then slot.advised + multiset{cookie} else slot.advised - multiset{cookie};
    SlotTallies(m, name, slot.(advised := book), x);
    if x.Subscription? {
      assert book[x.cookie] == slot.advised[x.cookie]
        + (if x.cookie != cookie then 0 else if more then 1 else if slot.advised[cookie] > 0 then -1 else 0);
    }
  }

  lemma AdvisedTallies(m: Machine, action: Action, x: Asset)
    requires Tidy(m) && (action.RecordSubscription? || action.ForgetSubscription?)
    requires Entered(m, x) + Change(action, x) >= 0
    ensures Tallies(m, Perform(m, action), x, Change(action, x))
  {
    SlotActions(m, action);
    BookTallies(m, action.name, action.cookie, action.RecordSubscription?, x);
  }

  lemma ReturnTallies(m: Machine, action: Action, x: Asset)
    requires Tidy(m) && (action.KeepSubscription? || action.ReturnSlot?)
    requires m.SlotOf(action.name).busy
    ensures Tallies(m, Perform(m, action), x, Change(action, x))
  {
    SlotActions(m, action);
    SlotTallies(m, action.name, Perform(m, action).SlotOf(action.name), x);
  }

  lemma PerformTallies(m: Machine, action: Action, x: Asset)
    requires Tidy(m) && Coherent(m.state)
    requires action.KeepSubscription? || action.ReturnSlot? ==> m.SlotOf(action.name).busy
    requires Entered(m, x) + Change(action, x) >= 0
    ensures Tallies(m, Perform(m, action), x, Change(action, x))
  {
    if action.RecordSubscription? || action.ForgetSubscription? {
      AdvisedTallies(m, action, x);
    } else if action.KeepSubscription? || action.ReturnSlot? {
      ReturnTallies(m, action, x);
    } else if action.RecordKey? || action.ForgetKey? || action.RecordSink? || action.ForgetSink? {
      if x.KeySink? || x.ThreadSink? {
        SinkTallies(m, action, x);
      }
    }
  }

  // ---------------------------------------------------------------- steps

  /** A step that leaves the difference to the books where it belongs. */
  lemma StepBalances(m: Machine, p: Program, t: Machine, q: Program, x: Asset, n: int, k: int)
    requires Balanced(m, p, x, n) && Accounts(q, x, k, t.state)
    requires Succeeds(m.state, t.state) && t.stack == m.stack
    requires Entered(t, x) - Held(t, x) - k == Entered(m, x) - Held(m, x) - n
    ensures Balances(t, q, x)
  {
    BelowPersists(m.stack, x, Entered(m, x) - Held(m, x) - n, m.state, t.state);
    assert Balanced(t, q, x, k);
  }

  lemma DoAccounts(p: Program, x: Asset, n: int, s: State)
    requires p.Do? && Accounts(p, x, n, s)
    ensures Accounts(p.next, x, n + Change(p.action, x), s) && n + Change(p.action, x) >= 0
  {
  }

  lemma DoBalances(m: Machine, p: Program, x: Asset, n: int, bound: nat)
    requires p.Do? && Room(m.state, bound) && Tidy(m) && Balanced(m, p, x, n)
    requires p.action.KeepSubscription? || p.action.ReturnSlot? ==> m.SlotOf(p.action.name).busy
    ensures Balances(Perform(m, p.action), p.next, x) && Tidy(Perform(m, p.action))
  {
    var t := Perform(m, p.action);
    MoveSucceeds(m, p, bound);
    assert t == Move(m, p).0;
    DoAccounts(p, x, n, m.state);
    PerformTallies(m, p.action, x);
    AccountsPersist(p.next, x, n + Change(p.action, x), m.state, t.state);
    StepBalances(m, p, t, p.next, x, n, n + Change(p.action, x));
  }

  lemma CompleteBalances(m: Machine, p: Program, x: Asset, n: int, bound: nat)
    requires p.CompleteWith? && Room(m.state, bound) && Tidy(m) && Balanced(m, p, x, n)
    ensures Balances(Move(m, p).0, Move(m, p).1, x) && Tidy(Move(m, p).0)
  {
    MoveSucceeds(m, p, bound);
    var t := Move(m, p).0;
    if m.state.CanComplete(p.h.attempt.token) {
      AccountsPersist(p.yes, x, n - Both(p.h, x), m.state, t.state);
      StepBalances(m, p, t, p.yes, x, n, n - Both(p.h, x));
    } else {
      StepBalances(m, p, t, p.no, x, n, n);
    }
  }

  lemma EndRecovers(m: Machine, x: Asset)
    requires Coherent(m.state)
    ensures var ended := Apartment.Deactivate(m.state);
            Held(m.(state := ended.1), x) == Held(m, x) - Recovered(ended.0, x)
  {
  }

  lemma EndBalances(m: Machine, p: Program, x: Asset, n: int, bound: nat)
    requires p.End? && Room(m.state, bound) && Tidy(m) && Balanced(m, p, x, n)
    ensures Balances(Move(m, p).0, Move(m, p).1, x) && Tidy(Move(m, p).0)
  {
    MoveSucceeds(m, p, bound);
    var ended := Apartment.Deactivate(m.state);
    Ending(ended.0, x, ended.1);
    EndRecovers(m, x);
    var t := Move(m, p).0;
    assert Entered(t, x) == Entered(m, x) && Held(t, x) == Held(m.(state := ended.1), x);
    StepBalances(m, p, t, Move(m, p).1, x, n, Recovered(ended.0, x));
  }

  lemma ReplaceBalances(m: Machine, p: Program, x: Asset, n: int)
    requires p.Replace? && Tidy(m) && Balanced(m, p, x, n)
    ensures Balances(Move(m, p).0, Move(m, p).1, x) && Tidy(Move(m, p).0)
  {
    var slot := m.SlotOf(p.name);
    var t := Move(m, p).0;
    if slot.busy {
      StepBalances(m, p, t, p.next, x, n, n);
    } else {
      var extra := Bit(x == Loan(p.name)) + Bit(slot.cookie.Some? && x == Subscription(p.name, slot.cookie.value));
      Renewing(p.name, slot.cookie, m.Effective(p.wanted, p.needsWindow), p.next, x, n, m.state);
      SlotTallies(m, p.name, slot.(busy := true, cookie := None, context := None), x);
      StepBalances(m, p, t, Move(m, p).1, x, n, n + extra);
    }
  }

  lemma FocusAccounts(m: Machine, p: Program, x: Asset, s: State)
    requires p.TryFocus? || p.TryClear? || p.TryContext?
    ensures Accounts(Move(m, p).1, x, 0, s)
  {
    match p
    case TryFocus(_, focus) => Following(focus.context, true, Done(Ok), x, s);
    case TryClear(_, _) => Following(None, true, Pause(Done(Ok)), x, s);
    case TryContext(_, _, offered) => Following(offered, true, Done(Ok), x, s);
  }

  lemma FocusBalances(m: Machine, p: Program, x: Asset, n: int, bound: nat)
    requires p.TryFocus? || p.TryClear? || p.TryContext?
    requires Room(m.state, bound) && Tidy(m) && Balanced(m, p, x, n)
    ensures Balances(Move(m, p).0, Move(m, p).1, x) && Tidy(Move(m, p).0)
  {
    var t := Move(m, p).0;
    MoveSucceeds(m, p, bound);
    FocusAccounts(m, p, x, t.state);
    assert t == m.(state := t.state) && Held(t, x) == Held(m, x);
    StepBalances(m, p, t, Move(m, p).1, x, n, 0);
  }

  /** A program that returns a cell has it on loan. */
  lemma LoanIsOut(m: Machine, p: Program)
    requires p.Do? && (p.action.KeepSubscription? || p.action.ReturnSlot?) && Balances(m, p, Loan(p.action.name))
    ensures m.SlotOf(p.action.name).busy
  {
    var x := Loan(p.action.name);
    var n :| Balanced(m, p, x, n);
    DoAccounts(p, x, n, m.state);
  }

  lemma MoveBalancesOne(m: Machine, p: Program, x: Asset, bound: nat)
    requires !Stopped(p) && Accounted(m, p, bound)
    ensures Balances(Move(m, p).0, Move(m, p).1, x) && Tidy(Move(m, p).0)
  {
    assert Balances(m, p, x);
    var n :| Balanced(m, p, x, n);
    match p
    case Do(action, _) =>
      if action.KeepSubscription? || action.ReturnSlot? {
        LoanIsOut(m, p);
      }
      DoBalances(m, p, x, n, bound);
    case IfCurrent(_, _, _) => StepBalances(m, p, m, Move(m, p).1, x, n, n);
    case CompleteWith(_, _, _, _, _) => CompleteBalances(m, p, x, n, bound);
    case End => EndBalances(m, p, x, n, bound);
    case Replace(_, _, _, _) => ReplaceBalances(m, p, x, n);
    case _ => FocusBalances(m, p, x, n, bound);
  }

  lemma MoveBalances(m: Machine, p: Program, bound: nat)
    requires !Stopped(p) && Accounted(m, p, bound)
    ensures Accounted(Move(m, p).0, Move(m, p).1, bound)
  {
    MoveSucceeds(m, p, bound);
    forall x: Asset
      ensures Balances(Move(m, p).0, Move(m, p).1, x) && Tidy(Move(m, p).0)
    {
      MoveBalancesOne(m, p, x, bound);
    }
    MoveBalancesOne(m, p, Loan(TextEdit), bound);
  }

  lemma {:induction false} AdvanceBalances(m: Machine, p: Program, bound: nat)
    requires Accounted(m, p, bound)
    ensures Accounted(Advance(m, p), Done(Ok), bound)
    decreases Weight(p)
  {
    if Stopped(p) {
      var t := Advance(m, p);
      forall x: Asset ensures Balances(t, Done(Ok), x) {
        assert Balances(m, p, x);
        var n :| Balanced(m, p, x, n);
        assert Entered(t, x) == Entered(m, x) && Held(t, x) == Held(m, x);
        assert p.Done? || Below(t.stack, x, Entered(m, x) - Held(m, x), m.state);
        assert Balanced(t, Done(Ok), x, 0);
      }
    } else {
      MoveBalances(m, p, bound);
      AdvanceBalances(Move(m, p).0, Move(m, p).1, bound);
    }
  }

  // ---------------------------------------------------------------- events

  lemma ReplyBalances(m: Machine, answer: Option<nat>, bound: nat)
    requires m.stack.Call? && Accounted(m, Done(Ok), bound)
    ensures Accounted(m.(stack := m.stack.below), Resumed(m.stack.waiting, answer), bound)
  {
    var t, waiting := m.(stack := m.stack.below), m.stack.waiting;
    forall x: Asset ensures Balances(t, Resumed(waiting, answer), x) {
      assert Balances(m, Done(Ok), x);
      var total := Entered(m, x) - Held(m, x);
      var k :| Accounts(waiting, x, k, m.state) && Below(t.stack, x, total - k, m.state);
      Returning(waiting, answer, x, k, m.state);
      assert Entered(t, x) - Held(t, x) == total;
      assert Balanced(t, Resumed(waiting, answer), x, k);
    }
  }

  /** A call begins with nothing to answer for. */
  lemma CallBalances(m: Machine, t: Machine, p: Program, bound: nat)
    requires Accounted(m, Done(Ok), bound) && Succeeds(m.state, t.state) && t == m.(state := t.state)
    requires t.state.keystrokeMgr == m.state.keystrokeMgr && t.state.cookie == m.state.cookie
    requires t.state.keystrokeMgr.Some? ==> t.state.clientId == m.state.clientId
    requires forall x: Asset :: Accounts(p, x, 0, t.state)
    ensures forall x: Asset :: Balances(t, p, x)
  {
    forall x: Asset ensures Balances(t, p, x) {
      assert Balances(m, Done(Ok), x);
      var n :| Balanced(m, Done(Ok), x, n);
      assert Entered(t, x) == Entered(m, x) && Held(t, x) == Held(m, x);
      StepBalances(m, Done(Ok), t, p, x, n, 0);
    }
  }

  function Activations(events: seq<HostEvent>): nat {
    if events == [] then 0 else Bit(events[0].CallActivate?) + Activations(events[1..])
  }

  lemma {:induction false} StepAccounted(m: Machine, event: HostEvent, bound: nat)
    requires Accounted(m, Done(Ok), bound) && bound + 2 * Bit(event.CallActivate?) < U64_MODULUS
    ensures Accounted(Step(m, event), Done(Ok), bound + 2 * Bit(event.CallActivate?))
  {
    match event
    case Reply(ok, value) =>
      if m.stack.Call? {
        var answer := if ok then Some(value) else None;
        ReplyBalances(m, answer, bound);
        AdvanceBalances(m.(stack := m.stack.below), Resumed(m.stack.waiting, answer), bound);
      }
    case CallActivate(client) => BeginAccounted(m, client, bound);
    case CallDeactivate =>
      forall x: Asset ensures Accounts(Follow(None, false, End), x, 0, m.state) {
        Following(None, false, End, x, m.state);
      }
      CallBalances(m, m, Follow(None, false, End), bound);
      AdvanceBalances(m, Follow(None, false, End), bound);
    case CallSetFocus(document) => AskAccounted(m, FocusIdentity(m.state.focusGeneration, document), bound);
    case CallUninitDocument(document) => AskAccounted(m, UninitIdentity(m.state.focusGeneration, document), bound);
    case CallChangeContext(context, popped) => AskAccounted(m, ChangedIdentity(m.state.focusGeneration, context, popped), bound);
  }

  lemma {:induction false} AskAccounted(m: Machine, q: Question, bound: nat)
    requires Accounted(m, Done(Ok), bound) && AttemptOf(q) == None && (forall x: Asset :: OwedAt(q, x) == 0)
    ensures Accounted(Advance(m, Ask(q)), Done(Ok), bound)
  {
    CallBalances(m, m, Ask(q), bound);
    AdvanceBalances(m, Ask(q), bound);
  }

  lemma {:induction false} BeginAccounted(m: Machine, client: nat, bound: nat)
    requires Accounted(m, Done(Ok), bound) && bound + 2 < U64_MODULUS
    ensures Accounted(Step(m, CallActivate(client)), Done(Ok), bound + 2)
  {
    var begun := Begin(m.state, client);
    if begun.0.None? {
      var t := m.(last := AlreadyExists);
      forall x: Asset ensures Balances(t, Done(Ok), x) {
        assert Balances(m, Done(Ok), x);
        var n :| Balanced(m, Done(Ok), x, n);
        assert Entered(t, x) == Entered(m, x) && Held(t, x) == Held(m, x);
        assert Balanced(t, Done(Ok), x, n);
      }
    } else {
      var t := m.(state := begun.1);
      var p := Ask(Manager(Attempt(begun.0.value, client)));
      assert forall x: Asset :: Accounts(p, x, 0, t.state);
      CallBalances(m, t, p, bound);
      AdvanceBalances(t, p, bound + 2);
    }
  }

  lemma {:induction false} RunAccounted(m: Machine, events: seq<HostEvent>, bound: nat)
    requires Accounted(m, Done(Ok), bound) && bound + 2 * Activations(events) < U64_MODULUS
    ensures Accounted(Run(m, events), Done(Ok), bound + 2 * Activations(events))
    decreases |events|
  {
    if events != [] {
      StepAccounted(m, events[0], bound);
      RunAccounted(Step(m, events[0]), events[1..], bound + 2 * Bit(events[0].CallActivate?));
    }
  }

  lemma StartAccounted()
    ensures Accounted(START, Done(Ok), 0)
  {
    forall x: Asset ensures Balances(START, Done(Ok), x) {
      assert Balanced(START, Done(Ok), x, 0);
    }
  }

  /** Fewer than 2^63 activations, so that no generation comes back. */
  predicate NoWrap(events: seq<HostEvent>) { 2 * Activations(events) < U64_MODULUS }

  /** Whatever the host re-enters: whenever no call is on the stack, everything advised is held exactly once,
      and nothing is on loan. */
  lemma EveryBookBalances(events: seq<HostEvent>, x: Asset)
    requires NoWrap(events) && Run(START, events).stack.Idle?
    ensures Entered(Run(START, events), x) == Held(Run(START, events), x)
  {
    StartAccounted();
    RunAccounted(START, events, 0);
    assert Balances(Run(START, events), Done(Ok), x);
  }

  /** So whenever no call is on the stack, the key sink and the thread sink are
      advised exactly once while the service is activated and not at all otherwise, and each subscription
      cell holds exactly what is advised for it. */
  lemma BooksBalance(events: seq<HostEvent>)
    requires NoWrap(events) && Run(START, events).stack.Idle?
    ensures var m := Run(START, events);
            && m.keys == (if m.state.IsActivated() then multiset{m.state.clientId} else multiset{})
            && m.sinks == (if m.state.IsActivated() then Bag(m.state.cookie) else multiset{})
            && !m.edit.busy && m.edit.advised == Bag(m.edit.cookie)
            && !m.layout.busy && m.layout.advised == Bag(m.layout.cookie)
  {
    var m := Run(START, events);
    StartAccounted();
    RunAccounted(START, events, 0);
    forall x: Asset ensures Entered(m, x) == Held(m, x) {
      EveryBookBalances(events, x);
    }
    IdleSinks(m);
    IdleSlot(m, TextEdit);
    IdleSlot(m, TextLayout);
  }

  lemma IdleSinks(m: Machine)
    requires Coherent(m.state) && forall x: Asset :: Entered(m, x) == Held(m, x)
    ensures m.keys == (if m.state.IsActivated() then multiset{m.state.clientId} else multiset{})
    ensures m.sinks == Bag(m.state.cookie)
  {
    var keys := if m.state.IsActivated() then multiset{m.state.clientId} else multiset{};
    forall n: nat ensures m.keys[n] == keys[n] {
      assert Entered(m, KeySink(n)) == Held(m, KeySink(n));
    }
    forall n: nat ensures m.sinks[n] == Bag(m.state.cookie)[n] {
      assert Entered(m, ThreadSink(n)) == Held(m, ThreadSink(n));
    }
  }

  lemma IdleSlot(m: Machine, name: SlotName)
    requires forall x: Asset :: Entered(m, x) == Held(m, x)
    ensures !m.SlotOf(name).busy && m.SlotOf(name).advised == Bag(m.SlotOf(name).cookie)
  {
    assert Entered(m, Loan(name)) == 0;
    forall n: nat ensures m.SlotOf(name).advised[n] == Bag(m.SlotOf(name).cookie)[n] {
      assert Entered(m, Subscription(name, n)) == Held(m, Subscription(name, n));
    }
  }

  /** Is the thing an action undoes on the host's books? */
  predicate Outstanding(m: Machine, action: Action) {
    match action
    case ForgetKey(client) => client in m.keys
    case ForgetSink(cookie) => cookie in m.sinks
    case ForgetSubscription(name, cookie) => cookie in m.SlotOf(name).advised
    case _ => true
  }

  /** At every moment of every run: an unadvise that is under way is of something advised, and what the
      state and the cells hold is advised. */
  lemma NothingIsUndoneTwice(events: seq<HostEvent>)
    requires NoWrap(events)
    ensures var m := Run(START, events);
            && (m.stack.Call? && m.stack.waiting.Unadvise? ==> Outstanding(m, m.stack.waiting.action))
            && (m.state.IsActivated() ==> m.state.clientId in m.keys && Bag(m.state.cookie) <= m.sinks)
            && (m.edit.cookie.Some? ==> m.edit.cookie.value in m.edit.advised)
            && (m.layout.cookie.Some? ==> m.layout.cookie.value in m.layout.advised)
  {
    var m := Run(START, events);
    StartAccounted();
    RunAccounted(START, events, 0);
    HeldIsEntered(m, KeySink(m.state.clientId));
    if m.state.cookie.Some? { HeldIsEntered(m, ThreadSink(m.state.cookie.value)); }
    if m.edit.cookie.Some? { HeldIsEntered(m, Subscription(TextEdit, m.edit.cookie.value)); }
    if m.layout.cookie.Some? { HeldIsEntered(m, Subscription(TextLayout, m.layout.cookie.value)); }
    if m.stack.Call? && m.stack.waiting.Unadvise? {
      UndoneIsEntered(m, m.stack.waiting.action);
    }
  }

  lemma HeldIsEntered(m: Machine, x: Asset)
    requires Balances(m, Done(Ok), x)
    ensures Held(m, x) <= Entered(m, x)
  {
  }

  lemma UndoneIsEntered(m: Machine, action: Action)
    requires m.stack.Call? && m.stack.waiting.Unadvise? && m.stack.waiting.action == action
    requires forall x: Asset :: Balances(m, Done(Ok), x)
    ensures Outstanding(m, action)
  {
    if action.ForgetKey? || action.ForgetSink? || action.ForgetSubscription? {
      var x := match action
        case ForgetKey(client) => KeySink(client)
        case ForgetSink(cookie) => ThreadSink(cookie)
        case ForgetSubscription(name, cookie) => Subscription(name, cookie)
        case _ => Loan(TextEdit);
      assert Balances(m, Done(Ok), x) && Change(action, x) == -1;
      var total := Entered(m, x) - Held(m, x);
      var k :| Accounts(m.stack.waiting, x, k, m.state) && Below(m.stack.below, x, total - k, m.state);
      assert Accounts(m.stack.waiting.next, x, k - 1, m.state);
    }
  }

  // ---------------------------------------------------------------- no activation is left hanging

  /** A program that will complete or abort an activation, as long as it is in progress. */
  predicate Minds(p: Program, token: U64) {
    match p
    case Ask(q) => AttemptOf(q).Some? && AttemptOf(q).value.token == token
    case IfCurrent(checked, yes, _) => checked == token && Minds(yes, token)
    case CompleteWith(h, _, _, _, _) => h.attempt.token == token
    case Do(action, next) => action == AbortToken(token) || Minds(next, token)
    case Pause(next) => Minds(next, token)
    case Unadvise(_, next) => Minds(next, token)
    case _ => false
  }

  predicate MindedBelow(stack: Stack, token: U64) {
    stack.Call? && (Minds(stack.waiting, token) || MindedBelow(stack.below, token))
  }

  predicate Minded(m: Machine, p: Program) {
    m.state.inProgress ==> Minds(p, m.state.activationGeneration) || MindedBelow(m.stack, m.state.activationGeneration)
  }

  lemma ResumeMinds(q: Question, answer: Option<nat>, token: U64)
    requires Minds(Ask(q), token)
    ensures Minds(Resume(q, answer), token)
  {
    match q
    case AdviseKey(a, _, _) =>
      if answer.Some? {
        assert Minds(Resume(q, answer).next.next, token);
      }
    case AdviseThread(a, keystrokeMgr, source) =>
      if answer.Some? {
        assert Minds(Resume(q, answer).next.next, token);
      } else {
        assert Minds(Resume(q, answer).next, token);
      }
    case CreateWindow(h, _) =>
      if answer.None? {
        assert Minds(Resume(q, answer).next.next, token);
      }
    case _ =>
  }

  lemma MoveMinds(m: Machine, p: Program)
    requires !Stopped(p) && Minded(m, p)
    ensures Minded(Move(m, p).0, Move(m, p).1)
  {
  }

  lemma {:induction false} AdvanceMinds(m: Machine, p: Program)
    requires Minded(m, p)
    ensures Minded(Advance(m, p), Done(Ok))
    decreases Weight(p)
  {
    if !Stopped(p) {
      MoveMinds(m, p);
      AdvanceMinds(Move(m, p).0, Move(m, p).1);
    }
  }

  lemma {:induction false} StepMinds(m: Machine, event: HostEvent)
    requires Minded(m, Done(Ok))
    ensures Minded(Step(m, event), Done(Ok))
  {
    match event
    case Reply(ok, value) =>
      if m.stack.Call? {
        var waiting, answer := m.stack.waiting, if ok then Some(value) else None;
        if m.state.inProgress && Minds(waiting, m.state.activationGeneration) && waiting.Ask? {
          ResumeMinds(waiting.question, answer, m.state.activationGeneration);
        }
        AdvanceMinds(m.(stack := m.stack.below), Resumed(waiting, answer));
      }
    case CallActivate(client) =>
      var begun := Begin(m.state, client);
      if begun.0.Some? {
        AdvanceMinds(m.(state := begun.1), Ask(Manager(Attempt(begun.0.value, client))));
      }
    case CallDeactivate => AdvanceMinds(m, Follow(None, false, End));
    case CallSetFocus(document) => AdvanceMinds(m, Ask(FocusIdentity(m.state.focusGeneration, document)));
    case CallUninitDocument(document) => AdvanceMinds(m, Ask(UninitIdentity(m.state.focusGeneration, document)));
    case CallChangeContext(context, popped) => AdvanceMinds(m, Ask(ChangedIdentity(m.state.focusGeneration, context, popped)));
  }

  lemma {:induction false} RunMinds(m: Machine, events: seq<HostEvent>)
    requires Minded(m, Done(Ok))
    ensures Minded(Run(m, events), Done(Ok))
    decreases |events|
  {
    if events != [] {
      StepMinds(m, events[0]);
      RunMinds(Step(m, events[0]), events[1..]);
    }
  }

  /** So no activation stays in progress once every call has returned; the next one is never refused for
      one that was given up. */
  lemma NothingIsLeftHanging(events: seq<HostEvent>)
    requires Run(START, events).stack.Idle?
    ensures !Run(START, events).state.inProgress
  {
    RunMinds(START, events);
  }
}
