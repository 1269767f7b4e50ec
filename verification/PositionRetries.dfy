/** That the candidate window keeps trying to be placed: the counterpart of the bounds in `TextExtent`.
    As long as timers start, an unplaced window has a timer running until all retries are used up, and
    refused requests use up every one of them. */
module PositionRetries {
  import opened Wrappers
  import opened Numbers
  import opened TextExtent

  /** The rendering an event leads to, if there is a snapshot to render. */
  function RenderedWith(s: Tracker, e: Event): Option<Outside> {
    match e
    case Snapshot(true, outside) => Some(outside)
    case Layout(outside) => if s.hasSnapshot then Some(outside) else None
    case Reload(outside) => if s.hasSnapshot then Some(outside) else None
    case Timer(outside) => if s.hasSnapshot then Some(outside) else None
    case Update(epoch, _, outside) => if s.hasSnapshot && epoch == s.epoch then Some(outside) else None
    case _ => None
  }

  predicate StillTrying(out: Tracker) {
    if out.result.Some? then !out.retryPending && out.retryCount == 0 && !out.needsRetry
    else out.needsRetry && (out.retryPending || out.retryCount == 6)
  }

  lemma RenderingKeepsTrying(s: Tracker, outside: Outside)
    requires s.retryCount <= 6 && outside.timerStarts
    ensures StillTrying(Rendered(s, outside))
  {
    var asked := Requested(s, outside.attempt);
    assert asked.retryCount == s.retryCount;
  }

  /** No rendering gives up early: afterwards the place is known and no retry is due, or a timer runs, or
      all six retries have been used up. */
  lemma KeepsTrying(s: Tracker, e: Event)
    requires Valid(s) && Unwrapped(s) && Enabled(s, e)
    requires RenderedWith(s, e).Some? && RenderedWith(s, e).value.timerStarts
    ensures var out := Step(s, e);
            && (out.result.Some? ==> !out.retryPending && out.retryCount == 0 && !out.needsRetry)
            && (out.result.None? ==> out.needsRetry && (out.retryPending || out.retryCount == 6))
  {
    assert StillTrying(Step(s, e)) by {
      match e {
        case Snapshot(_, outside) => RenderingKeepsTrying(s.(dirty := true, hasSnapshot := true), outside);
        case Layout(outside) => RenderingKeepsTrying(s.(dirty := true), outside);
        case Reload(outside) => RenderingKeepsTrying(s, outside);
        case Timer(outside) => RenderingKeepsTrying(Fired(s), outside);
        case Update(epoch, point, outside) => RenderingKeepsTrying(Landed(s, epoch, point), outside);
        case _ =>
      }
    }
  }

  /** A result of the current epoch that has a place settles it. */
  lemma ResultPlacesWindow(s: Tracker, epoch: nat, place: Point, outside: Outside)
    requires Valid(s) && Unwrapped(s) && epoch == s.epoch && epoch in s.flying
    ensures var out := Step(s, Update(epoch, Some(place), outside));
            && out.result == Some(place)
            && (s.hasSnapshot ==> !out.retryPending && out.retryCount == 0 && !out.needsRetry)
  {
    OnlyCurrentResultsCount(s, Update(epoch, Some(place), outside));
  }

  /** The delays double from 16 to 512 milliseconds, and there are six of them. */
  lemma DelaysDouble(attempt: nat)
    ensures RetryDelay(0) == Some(16) && RetryDelay(5) == Some(512)
    ensures attempt < 5 ==> RetryDelay(attempt).Some? && RetryDelay(attempt + 1) == Some(2 * RetryDelay(attempt).value)
    ensures attempt > 5 ==> RetryDelay(attempt) == None
  {
    assert Power(1) == 2 && Power(2) == 4 && Power(3) == 8 && Power(4) == 16 && Power(5) == 32;
  }

  // ---------------------------------------------------------------- every retry is used

  /** News after which nothing is known, pending or counted. */
  predicate Resets(e: Event) { e.Hide? || e.CommitOrCancel? || (e.Snapshot? && !e.composing) }

  /** The host refuses the request, and a timer can be started. */
  predicate Refuses(outside: Outside) { !outside.attempt.Accepted? && outside.timerStarts }

  function TimerEvents(outsides: seq<Outside>): seq<Event> {
    seq(|outsides|, i requires 0 <= i < |outsides| => Timer(outsides[i]))
  }

  /** Waiting for retry number `count`, with nothing in flight that could end the wait. */
  predicate AwaitsRetry(s: Tracker, count: nat) {
    && s.hasSnapshot && s.dirty && !s.pending && s.result.None?
    && s.retryCount == count && s.retryPending
  }

  lemma FirstRefusal(s: Tracker, news: Event, outside: Outside)
    requires Resets(news) && Refuses(outside)
    ensures var out := Step(Step(s, news), Snapshot(true, outside));
            && AwaitsRetry(out, 1) && out.attempts == s.attempts + 1 && out.delay == s.delay + 16
            && out.stale == Messages(s)
  {
    DelaysDouble(0);
  }

  lemma RefusedTimer(s: Tracker, count: nat, outside: Outside)
    requires AwaitsRetry(s, count) && 0 < count <= 6 && Refuses(outside)
    ensures var out := Step(s, Timer(outside));
            && Enabled(s, Timer(outside)) && out.attempts == s.attempts + 1 && out.stale == s.stale
            && out.delay == s.delay + (if count < 6 then 16 * Power(count) else 0)
            && (if count < 6 then AwaitsRetry(out, count + 1) else !out.retryPending && out.retryCount == 6 && out.result.None?)
  {
  }

  lemma {:induction false} RefusedToTheEnd(s: Tracker, count: nat, outsides: seq<Outside>)
    requires AwaitsRetry(s, count) && 0 < count <= 6 && |outsides| == 7 - count
    requires forall i :: 0 <= i < |outsides| ==> Refuses(outsides[i])
    ensures Possible(s, TimerEvents(outsides))
    ensures var out := Run(s, TimerEvents(outsides));
            && out.attempts == s.attempts + 7 - count && out.delay == s.delay + 16 * (Power(6) - Power(count))
            && !out.retryPending && out.retryCount == 6 && out.result.None? && out.stale == s.stale
    decreases 7 - count
  {
    var events := TimerEvents(outsides);
    RefusedTimer(s, count, outsides[0]);
    assert events[1..] == TimerEvents(outsides[1..]);
    if count < 6 {
      RefusedToTheEnd(Step(s, events[0]), count + 1, outsides[1..]);
    }
  }

  /** The bounds are reached: a snapshot after news that resets the count, every request refused and every
      timer started, makes exactly seven attempts and schedules exactly 1008 milliseconds; no timer is
      left running after that, and no message to come but those of timers killed before. */
  lemma ExactlySevenAttempts(s: Tracker, news: Event, outside: Outside, outsides: seq<Outside>)
    requires Resets(news) && Refuses(outside)
    requires |outsides| == 6 && forall i :: 0 <= i < 6 ==> Refuses(outsides[i])
    ensures var events := [news, Snapshot(true, outside)] + TimerEvents(outsides);
            var out := Run(s, events);
            && Possible(s, events)
            && out.attempts == s.attempts + 7 && out.delay == s.delay + 1008
            && !out.retryPending && out.result.None? && Messages(out) == Messages(s)
  {
    var timers := TimerEvents(outsides);
    var events := [news, Snapshot(true, outside)] + timers;
    var asked := Step(Step(s, news), Snapshot(true, outside));
    FirstRefusal(s, news, outside);
    RefusedToTheEnd(asked, 1, outsides);
    PowerGrows(1);
    assert events[1..] == [Snapshot(true, outside)] + timers && events[1..][1..] == timers;
    assert Possible(Step(s, news), events[1..]) && Run(Step(s, news), events[1..]) == Run(asked, timers);
  }

  /** A request that the host takes is in flight, of the current epoch, until its result comes. */
  lemma AcceptedRequestFlies(s: Tracker, e: Event)
    requires Valid(s) && Unwrapped(s) && Enabled(s, e) && !Quiet(e)
    requires RenderedWith(s, e).Some? && RenderedWith(s, e).value.attempt.Accepted?
    requires s.dirty || !e.Reload?
    ensures var out := Step(s, e);
            && out.pending && out.epoch == s.epoch && out.flying[out.epoch] == 1
            && out.attempts == s.attempts + (if s.pending then 0 else 1)
  {
  }

  /** A snapshot, a layout change and a timer each ask for the place anew; while a request is in flight they leave
      it to its result, which then asks. */
  lemma AsksAnew(s: Tracker, e: Event)
    requires RenderedWith(s, e).Some? && (e.Snapshot? || e.Layout? || e.Timer?)
    ensures s.pending ==> Step(s, e).attempts == s.attempts && Step(s, e).pending && Step(s, e).dirty
    ensures !s.pending ==> Step(s, e).attempts == s.attempts + 1
  {
  }

  lemma ResultAsksAnew(s: Tracker, point: Option<Point>, outside: Outside)
    requires Valid(s) && Unwrapped(s) && s.hasSnapshot && s.pending && s.dirty
    ensures s.epoch in s.flying
    ensures Step(s, Update(s.epoch, point, outside)).attempts == s.attempts + 1
  {
    OnlyCurrentResultsCount(s, Update(s.epoch, point, outside));
  }

  /** News that resets the position does not forget a kept snapshot: a layout change afterwards asks for its place
      exactly when there is one. */
  lemma LayoutAfterNewsAsksAgain(s: Tracker, news: Event, outside: Outside)
    requires Resets(news)
    ensures var out := Step(Step(s, news), Layout(outside));
            out.attempts == s.attempts + (if s.hasSnapshot then 1 else 0) && out.hasSnapshot == s.hasSnapshot
  {
    var reset := Step(s, news);
    assert !reset.pending && reset.attempts == s.attempts && reset.hasSnapshot == s.hasSnapshot;
    if s.hasSnapshot {
      AsksAnew(reset, Layout(outside));
    }
  }

  // ---------------------------------------------------------------- where the anchor begins

  /** The anchor of a composition is the first extent known or, if none is known at the first rendering,
      the caret; from then on it keeps its x. */
  lemma AnchorBegins(extents: seq<Option<Point>>, caret: Option<Point>)
    requires extents != []
    ensures var first := if extents[0].Some? then extents[0] else caret;
            Anchored(None, extents, caret) ==
              match first
              case None => Anchored(None, extents[1..], None)
              case Some(p) => Some(Point(p.x, LastKnown(extents[1..], p).y))
    ensures extents[0].Some? ==> ResolveInlineAnchor(extents[0], None, caret) == extents[0]
  {
    var first := if extents[0].Some? then extents[0] else caret;
    if first.Some? {
      AnchorStaysPinned(first.value, extents[1..], caret);
    }
  }
}
