/** The short window after a commit in which a Backspace may take back what the engine learned from it:
    the guard, the saved caret anchor, the flag that excuses one end-edit notification, and the events
    that arm, disturb or use the window. Times are milliseconds of a monotonic clock. */
module Rollback {
  import opened Wrappers
  import opened Numbers

  const WINDOW_MS := 10_000

  datatype Armed = Armed(token: nat, context: nat, deadline: nat)

  datatype GuardEvent = TextInput | Navigation | FocusChanged

  /** The anchors (by identity) the selection stands at, and what deleting before it would do. */
  datatype Deletion = Deletion(selectionEmpty: bool, standsAt: set<nat>, shifted: bool, callsSucceed: bool)

  datatype Event =
    /** A commit was applied; its context's identity and a clone of its end anchor, where obtained. */
    | CommitApplied(token: nat, context: Option<nat>, anchor: Option<nat>, now: nat)
    | GuardedBackspace(identity: Option<nat>, at: nat, deletion: Deletion)
    | BackspaceRejected
    | DeadCallback
    | EndEdit
    | Observed(event: GuardEvent)

  datatype State = State(armed: Option<Armed>, anchor: Option<nat>, suppress: bool, sent: seq<nat>)

  const FRESH := State(None, None, false, [])

  function Matching(armed: Option<Armed>, context: nat, now: nat): Option<nat> {
    if armed.Some? && armed.value.context == context && now < armed.value.deadline then Some(armed.value.token) else None
  }

  function Deadline(now: nat): nat { if now + WINDOW_MS <= U64_MAX then now + WINDOW_MS else U64_MAX }

  predicate Arms(e: Event) { e.CommitApplied? && e.context.Some? && e.anchor.Some? }

  predicate AppliesUnarmed(e: Event) { e.CommitApplied? && !Arms(e) }

  /** The deletion went through with the caret at the anchor. */
  predicate RemovesAt(deletion: Deletion, anchor: Option<nat>) {
    && deletion.callsSucceed && deletion.shifted && deletion.selectionEmpty
    && anchor.Some? && anchor.value in deletion.standsAt
  }

  /** The token this Backspace sends back, if any. */
  function Sends(s: State, e: Event): Option<nat>
    requires e.GuardedBackspace?
  {
    if e.identity.Some? && RemovesAt(e.deletion, s.anchor) then Matching(s.armed, e.identity.value, e.at) else None
  }

  function Step(s: State, e: Event): State {
    match e
    case CommitApplied(token, context, anchor, now) =>
      if context.Some? && anchor.Some? then State(Some(Armed(token, context.value, Deadline(now))), anchor, true, s.sent)
      else s.(suppress := true)
    case GuardedBackspace(_, _, _) =>
      State(None, None, s.suppress, if Sends(s, e).Some? then s.sent + [Sends(s, e).value] else s.sent)
    case EndEdit => if s.suppress then s.(suppress := false) else s.(armed := None, anchor := None)
    case _ => s.(armed := None, anchor := None)
  }

  function Run(s: State, events: seq<Event>): State
    decreases |events|
  {
    if events == [] then s else Run(Step(s, events[0]), events[1..])
  }

  // ---------------------------------------------------------------- what keeps a window open

  /** Nothing in between closes or replaces the window: commits that did not arm renew the excuse for an
      end-edit notification, each notification uses it up, anything else ends the window. */
  predicate Lasts(between: seq<Event>, excused: bool)
    decreases |between|
  {
    between == []
    || (var e := between[0];
        if AppliesUnarmed(e) then Lasts(between[1..], true)
        else e.EndEdit? && excused && Lasts(between[1..], false))
  }

  /** The commit at `j` armed a window that is still open after `events`. */
  predicate Live(events: seq<Event>, j: nat) {
    j < |events| && Arms(events[j]) && Lasts(events[j + 1..], true)
  }

  function OpenedBy(e: Event): Armed
    requires Arms(e)
  {
    Armed(e.token, e.context.value, Deadline(e.now))
  }

  /** The index of the commit whose window is open. */
  function Window(events: seq<Event>): (r: Option<nat>)
    ensures r.Some? ==> Live(events, r.value)
    decreases |events|
  {
    if events == [] then None
    else
      match Window(events[1..])
      case Some(j) =>
        assert events[1..][j] == events[j + 1] && events[1..][j + 1..] == events[j + 2..];
        Some(j + 1)
      case None => if Arms(events[0]) && Lasts(events[1..], true) then Some(0) else None
  }

  /** No commit in the stretch arms. */
  lemma {:induction false} LastsWithoutArming(between: seq<Event>, excused: bool, i: nat)
    requires Lasts(between, excused) && i < |between|
    ensures !Arms(between[i])
    decreases |between|
  {
    if i > 0 {
      LastsWithoutArming(between[1..], AppliesUnarmed(between[0]), i - 1);
    }
  }

  /** At most one commit has its window open. */
  lemma {:induction false} OneWindow(events: seq<Event>, j: nat, k: nat)
    requires Live(events, j) && Live(events, k)
    ensures j == k
  {
    if j < k {
      LastsWithoutArming(events[j + 1..], true, k - j - 1);
    } else if k < j {
      LastsWithoutArming(events[k + 1..], true, j - k - 1);
    }
  }

  lemma {:induction false} LiveIsFound(events: seq<Event>, j: nat)
    requires Live(events, j)
    ensures Window(events) == Some(j)
    decreases |events|
  {
    if j > 0 {
      assert events[1..][j - 1] == events[j] && events[1..][j..] == events[j + 1..];
      LiveIsFound(events[1..], j - 1);
    } else if Window(events[1..]).Some? {
      OneWindow(events, 0, Window(events).value);
    }
  }

  // ---------------------------------------------------------------- every run

  /** The guard is armed exactly when there is an anchor. */
  predicate Coherent(s: State) { s.armed.Some? <==> s.anchor.Some? }

  lemma {:induction false} RunIsCoherent(s: State, events: seq<Event>)
    requires Coherent(s)
    ensures Coherent(Run(s, events))
    decreases |events|
  {
    if events != [] {
      RunIsCoherent(Step(s, events[0]), events[1..]);
    }
  }

  lemma {:induction false} RunOpensWindow(s: State, events: seq<Event>)
    requires Coherent(s)
    ensures var out := Run(s, events);
            match Window(events)
            case Some(j) => out.armed == Some(OpenedBy(events[j])) && out.anchor == events[j].anchor
            case None => if Lasts(events, s.suppress) then out.armed == s.armed && out.anchor == s.anchor
                         else out.armed == None && out.anchor == None
    decreases |events|
  {
    if events != [] {
      RunOpensWindow(Step(s, events[0]), events[1..]);
    }
  }

  /** Over any run, a Backspace sends a token exactly when some earlier commit with that token armed a
      window that is still open, in the same context, before its deadline, and the character before
      that commit's end anchor was deleted with the caret standing there. */
  lemma SendsExactlyWhenOpen(events: seq<Event>, e: Event, token: nat)
    requires e.GuardedBackspace?
    ensures Sends(Run(FRESH, events), e) == Some(token)
       <==> exists j: nat :: Live(events, j) && Answers(events[j], e, token)
  {
    RunOpensWindow(FRESH, events);
    forall j: nat | Live(events, j)
      ensures Window(events) == Some(j)
    {
      LiveIsFound(events, j);
    }
    if Window(events).Some? {
      assert Live(events, Window(events).value);
    }
  }

  predicate Answers(commit: Event, e: Event, token: nat)
    requires Arms(commit) && e.GuardedBackspace?
  {
    && token == commit.token && e.identity == commit.context
    && e.at < Deadline(commit.now)
    && RemovesAt(e.deletion, commit.anchor)
  }

  lemma WithinTenSeconds(commit: Event, e: Event, token: nat)
    requires Arms(commit) && e.GuardedBackspace? && Answers(commit, e, token)
    ensures e.at - commit.now < 10_000
  {
  }

  /** An undisturbed commit can be taken back for exactly ten seconds, or until the clock's last moment if that
      comes first. */
  lemma LastsTenSeconds(token: nat, context: nat, anchor: nat, now: nat, at: nat)
    ensures var s := Run(FRESH, [CommitApplied(token, Some(context), Some(anchor), now)]);
            Sends(s, GuardedBackspace(Some(context), at, Deletion(true, {anchor}, true, true)))
              == if at < now + 10_000 && at < U64_MAX then Some(token) else None
  {
    var events := [CommitApplied(token, Some(context), Some(anchor), now)];
    assert events[1..] == [] && Run(Step(FRESH, events[0]), []) == Step(FRESH, events[0]);
    assert Run(FRESH, events) == Step(FRESH, events[0]);
  }

  function Count(between: seq<Event>, p: Event -> bool): nat
    decreases |between|
  {
    if between == [] then 0 else (if p(between[0]) then 1 else 0) + Count(between[1..], p)
  }

  function EndEdits(between: seq<Event>): nat { Count(between, (e: Event) => e.EndEdit?) }

  function Unarmed(between: seq<Event>): nat { Count(between, AppliesUnarmed) }

  /** While a window stays open there is no guard event, no other Backspace and no arming commit, and at
      most one end-edit notification more than there are commits that failed to arm. */
  lemma {:induction false} OpenWindowIsQuiet(between: seq<Event>, excused: bool)
    requires Lasts(between, excused)
    ensures forall i :: 0 <= i < |between| ==> between[i].EndEdit? || AppliesUnarmed(between[i])
    ensures EndEdits(between) <= Unarmed(between) + (if excused then 1 else 0)
    decreases |between|
  {
    if between != [] {
      OpenWindowIsQuiet(between[1..], AppliesUnarmed(between[0]));
    }
  }

  /** As long as every applied commit arms, a window stays open exactly as long as nothing but end-edit
      notifications happen, and at most one of them. */
  lemma {:induction false} LastsExactly(between: seq<Event>, excused: bool)
    requires forall i :: 0 <= i < |between| ==> !AppliesUnarmed(between[i])
    ensures Lasts(between, excused)
       <==> |between| <= (if excused then 1 else 0) && forall i :: 0 <= i < |between| ==> between[i].EndEdit?
    decreases |between|
  {
    if between != [] {
      assert !AppliesUnarmed(between[0]);
      LastsExactly(between[1..], false);
    }
  }

  /** Two Backspaces of one run that send answer two different commits: the second commit comes after
      the first Backspace. So a commit is answered at most once. */
  lemma AnsweredAtMostOnce(events: seq<Event>, first: nat, second: nat)
    requires first < second < |events|
    requires events[first].GuardedBackspace? && events[second].GuardedBackspace?
    requires Sends(Run(FRESH, events[..first]), events[first]).Some?
    requires Sends(Run(FRESH, events[..second]), events[second]).Some?
    ensures Window(events[..first]).Some? && Window(events[..second]).Some?
    ensures Window(events[..first]).value < first < Window(events[..second]).value < second
  {
    RunOpensWindow(FRESH, events[..first]);
    RunOpensWindow(FRESH, events[..second]);
    var j := Window(events[..second]).value;
    assert events[..second][j] == events[j];
    if j < first {
      var between := events[..second][j + 1..];
      assert between[first - j - 1].GuardedBackspace?;
      OpenWindowIsQuiet(between, true);
    }
  }

  /** A commit that is applied but cannot arm (no context identity, or no clone of its anchor) renews
      the excuse without closing the window: two end-edit notifications, and another commit's text,
      can then lie between a commit and the Backspace that takes it back. */
  lemma UnarmedCommitKeepsWindowOpen(token: nat, other: nat, context: nat, anchor: nat, now: nat)
    requires now + WINDOW_MS <= U64_MAX
    ensures var events := [CommitApplied(token, Some(context), Some(anchor), now), EndEdit,
                           CommitApplied(other, None, Some(anchor), now), EndEdit];
            var e := GuardedBackspace(Some(context), now, Deletion(true, {anchor}, true, true));
            Sends(Run(FRESH, events), e) == Some(token)
  {
    var events := [CommitApplied(token, Some(context), Some(anchor), now), EndEdit,
                   CommitApplied(other, None, Some(anchor), now), EndEdit];
    var e := GuardedBackspace(Some(context), now, Deletion(true, {anchor}, true, true));
    assert events[3..] == [EndEdit] && Lasts(events[4..], false) && Lasts(events[3..], true);
    assert events[2..] == [events[2]] + events[3..] && Lasts(events[2..], false);
    assert events[1..] == [EndEdit] + events[2..] && Lasts(events[1..], true);
    SendsExactlyWhenOpen(events, e, token);
    assert Live(events, 0) && Answers(events[0], e, token);
  }

  // ---------------------------------------------------------------- what has been sent

  /** The Backspace after `events` answers the commit whose window is open, with `token`. */
  ghost predicate AnswersOpen(events: seq<Event>, e: Event, token: nat) {
    e.GuardedBackspace? && exists j: nat :: Live(events, j) && Answers(events[j], e, token)
  }

  ghost predicate AnswersSome(events: seq<Event>, e: Event) { exists token: nat :: AnswersOpen(events, e, token) }

  /** The tokens sent over a run: one for each Backspace that answers an open window, in order. */
  ghost predicate SentOver(events: seq<Event>, sent: seq<nat>)
    decreases |events|
  {
    if events == [] then sent == []
    else
      var before, last := events[..|events| - 1], events[|events| - 1];
      if AnswersSome(before, last) then
        sent != [] && SentOver(before, sent[..|sent| - 1]) && AnswersOpen(before, last, sent[|sent| - 1])
      else SentOver(before, sent)
  }

  lemma {:induction false} RunSnoc(s: State, events: seq<Event>, e: Event)
    ensures Run(s, events + [e]) == Step(Run(s, events), e)
    decreases |events|
  {
    if events == [] {
      assert [e][1..] == [];
      assert [] + [e] == [e];
    } else {
      assert (events + [e])[1..] == events[1..] + [e];
      RunSnoc(Step(s, events[0]), events[1..], e);
    }
  }

  lemma SentAnother(events: seq<Event>, sent: seq<nat>, e: Event, token: nat)
    requires SentOver(events, sent) && AnswersOpen(events, e, token)
    ensures SentOver(events + [e], sent + [token])
  {
    assert (events + [e])[..|events|] == events && (sent + [token])[..|sent|] == sent;
  }

  lemma SentNothing(events: seq<Event>, sent: seq<nat>, e: Event)
    requires SentOver(events, sent) && !AnswersSome(events, e)
    ensures SentOver(events + [e], sent)
  {
    assert (events + [e])[..|events|] == events;
  }

  lemma SendIsLogged(events: seq<Event>, e: Event)
    requires SentOver(events, Run(FRESH, events).sent)
    ensures SentOver(events + [e], Step(Run(FRESH, events), e).sent)
  {
    var was := Run(FRESH, events);
    if e.GuardedBackspace? && Sends(was, e).Some? {
      var token := Sends(was, e).value;
      SendsExactlyWhenOpen(events, e, token);
      SentAnother(events, was.sent, e, token);
    } else {
      NothingToAnswer(events, e);
      SentNothing(events, was.sent, e);
    }
  }

  lemma RunLogs(events: seq<Event>, e: Event)
    requires SentOver(events, Run(FRESH, events).sent)
    ensures SentOver(events + [e], Run(FRESH, events + [e]).sent)
  {
    SendIsLogged(events, e);
    RunSnoc(FRESH, events, e);
  }

  /** The log of every run is exactly that. */
  lemma {:induction false} SendsAreLogged(events: seq<Event>)
    ensures SentOver(events, Run(FRESH, events).sent)
    decreases |events|
  {
    if events != [] {
      var before, last := events[..|events| - 1], events[|events| - 1];
      assert before + [last] == events;
      SendsAreLogged(before);
      RunLogs(before, last);
    }
  }

  lemma NothingToAnswer(events: seq<Event>, e: Event)
    requires e.GuardedBackspace? ==> Sends(Run(FRESH, events), e).None?
    ensures !AnswersSome(events, e)
  {
    forall token: nat
      ensures !AnswersOpen(events, e, token)
    {
      if e.GuardedBackspace? {
        SendsExactlyWhenOpen(events, e, token);
      }
    }
  }

  // ---------------------------------------------------------------- the guard and its window

  class RollbackGuard {
    var armed: Option<Armed>

    constructor ()
      ensures armed == None
    {
      armed := None;
    }

    method Arm(token: nat, context: nat, deadline: nat)
      modifies this
      ensures armed == Some(Armed(token, context, deadline))
    {
      armed := Some(Armed(token, context, deadline));
    }

    function MatchingToken(context: nat, now: nat): Option<nat>
      reads this
    {
      Matching(armed, context, now)
    }

    method Observe(event: GuardEvent)
      modifies this
      ensures armed == None
    {
      Disarm();
    }

    method Disarm()
      modifies this
      ensures armed == None
    {
      armed := None;
    }
  }

  class LearningWindow {
    const guard: RollbackGuard
    var anchor: Option<nat>
    var suppress: bool
    var sent: seq<nat>

    constructor ()
      ensures Model() == FRESH && fresh(guard)
    {
      guard := new RollbackGuard();
      anchor, suppress, sent := None, false, [];
    }

    function Model(): State
      reads this, guard
    {
      State(guard.armed, anchor, suppress, sent)
    }

    /** The tail of `handle_commit` once the text is in: `arm_rollback_guard`, then the flag. */
    method OnCommitApplied(token: nat, context: Option<nat>, clone: Option<nat>, now: nat)
      modifies this, guard
      ensures Model() == Step(old(Model()), CommitApplied(token, context, clone, now))
    {
      if context.Some? && clone.Some? {
        anchor := clone;
        guard.Arm(token, context.value, Deadline(now));
      }
      suppress := true;
    }

    method HandleGuardedBackspace(identity: Option<nat>, now: nat, deletion: Deletion)
      modifies this, guard
      ensures Model() == Step(old(Model()), GuardedBackspace(identity, now, deletion))
    {
      var token := None;
      if identity.Some? {
        token := guard.MatchingToken(identity.value, now);
      }
      guard.Disarm();
      var saved := anchor;
      anchor := None;
      if RemovesAt(deletion, saved) && token.Some? {
        sent := sent + [token.value];
      }
    }

    /** A Backspace request the host rejected, or a callback run after deactivation. */
    method GiveUp(event: Event)
      requires event.BackspaceRejected? || event.DeadCallback?
      modifies this, guard
      ensures Model() == Step(old(Model()), event)
    {
      guard.Disarm();
      anchor := None;
    }

    method DisarmRollback(event: GuardEvent)
      modifies this, guard
      ensures Model() == Step(old(Model()), Observed(event))
    {
      guard.Observe(event);
      anchor := None;
    }

    method TextEditEnd()
      modifies this, guard
      ensures Model() == Step(old(Model()), EndEdit)
    {
      var excused := suppress;
      suppress := false;
      if !excused {
        DisarmRollback(Navigation);
      }
    }
  }
}
