/** Where the candidate window goes: asynchronous text-extent requests, their results, and the timer
    that retries while the host has no layout yet.

    An epoch counts invalidations without bound; the generation stored with a request is its 64-bit
    image, wrapping past zero. Requests accepted by the host fly until their result is delivered. A timer
    that is killed may have put its message into the queue already: such messages are `stale`, and each may
    still arrive. */
module TextExtent {
  import opened Wrappers
  import opened Numbers

  const MAX_POSITION_RETRIES := 6

  datatype Point = Point(x: int, y: int)

  /** How an extent request fares: the host has nothing to ask, refuses, or takes the request. */
  datatype Attempt = NotReady | Rejected | Accepted

  /** What the outside does during one rendering. */
  datatype Outside = Outside(attempt: Attempt, timerStarts: bool)

  datatype Tracker = Tracker(
    epoch: nat, dirty: bool, pending: bool, result: Option<Point>, needsRetry: bool,
    retryCount: nat, retryPending: bool, hasSnapshot: bool,
    stale: nat, flying: multiset<nat>, attempts: nat, delay: nat)

  const FRESH := Tracker(0, true, false, None, false, 0, false, false, 0, multiset{}, 0, 0)

  /** `wrapping_add(1).max(1)`. */
  function NextGeneration(generation: nat): nat {
    var next := (generation + 1) % U64_MODULUS;
    if next == 0 then 1 else next
  }

  function Generation(epoch: nat): nat { 1 + epoch % (U64_MODULUS - 1) }

  lemma GenerationSteps(epoch: nat)
    ensures Generation(epoch + 1) == NextGeneration(Generation(epoch))
  {
  }

  /** Two epochs share a generation exactly when they are a multiple of 2^64 - 1 apart. */
  lemma SameGeneration(a: nat, b: nat)
    requires a <= b
    ensures Generation(a) == Generation(b) <==> (b - a) % (U64_MODULUS - 1) == 0
  {
  }

  /** Milliseconds before retry number `attempt + 1`. */
  function RetryDelay(attempt: nat): Option<nat> {
    if attempt < MAX_POSITION_RETRIES then Some(16 * Power(Min(attempt, 5))) else None
  }

  function Power(n: nat): nat { if n == 0 then 1 else 2 * Power(n - 1) }

  // ---------------------------------------------------------------- the steps

  function Requested(s: Tracker, attempt: Attempt): Tracker {
    if !s.dirty || s.pending then s
    else
      match attempt
      case Accepted =>
        s.(dirty := false, pending := true, flying := s.flying + multiset{s.epoch}, attempts := s.attempts + 1)
      case _ => s.(needsRetry := true, attempts := s.attempts + 1)
  }

  function Scheduled(s: Tracker, timerStarts: bool): Tracker {
    match RetryDelay(s.retryCount)
    case Some(delay) =>
      if s.retryPending || !timerStarts then s
      else s.(retryCount := s.retryCount + 1, retryPending := true, delay := s.delay + delay)
    case None => s
  }

  /** The timer messages that may still arrive: of the timer that runs, and of those that were killed. */
  function Messages(s: Tracker): nat { s.stale + if s.retryPending then 1 else 0 }

  function Cleared(s: Tracker): Tracker {
    s.(retryPending := false, retryCount := 0, needsRetry := false, stale := Messages(s))
  }

  /** A timer message is taken. Whichever timer it is of, the one that runs is killed. */
  function Fired(s: Tracker): Tracker {
    s.(retryPending := false, dirty := true, stale := if Messages(s) > 0 then Messages(s) - 1 else 0)
  }

  function Invalidated(s: Tracker): Tracker { s.(epoch := s.epoch + 1, pending := false, dirty := true, result := None) }

  /** Placing the window for a snapshot that is kept. */
  function Rendered(s: Tracker, outside: Outside): Tracker {
    var asked := Requested(s, outside.attempt);
    if asked.result.None? then Scheduled(asked.(needsRetry := true), outside.timerStarts) else Cleared(asked)
  }

  /** A result that counts has arrived. */
  function Landed(s: Tracker, epoch: nat, point: Option<Point>): Tracker {
    s.(flying := s.flying - multiset{epoch}, pending := false,
       result := if point.Some? then point else s.result, needsRetry := point.None?)
  }

  function Rerendered(s: Tracker, outside: Outside): Tracker { if s.hasSnapshot then Rendered(s, outside) else s }

  datatype Event =
    | Snapshot(composing: bool, outside: Outside)
    | Layout(outside: Outside)
    | Reload(outside: Outside)
    | Hide
    | CommitOrCancel
    | Timer(outside: Outside)
    | Update(epoch: nat, point: Option<Point>, outside: Outside)

  predicate Enabled(s: Tracker, e: Event) {
    match e
    case Timer(_) => Messages(s) > 0
    case Update(epoch, _, _) => epoch in s.flying
    case _ => true
  }

  function Step(s: Tracker, e: Event): Tracker {
    match e
    case Snapshot(composing, outside) =>
      if composing then Rendered(s.(dirty := true, hasSnapshot := true), outside) else Cleared(Invalidated(s.(dirty := true)))
    case Layout(outside) => Rerendered(s.(dirty := true), outside)
    case Reload(outside) => Rerendered(s, outside)
    case Hide => Cleared(Invalidated(s))
    case CommitOrCancel => Cleared(Invalidated(s))
    case Timer(outside) => Rerendered(Fired(s), outside)
    case Update(epoch, point, outside) =>
      if Generation(epoch) != Generation(s.epoch) then s.(flying := s.flying - multiset{epoch})
      else Rerendered(Landed(s, epoch, point), outside)
  }

  predicate Possible(s: Tracker, events: seq<Event>)
    decreases |events|
  {
    events == [] || (Enabled(s, events[0]) && Possible(Step(s, events[0]), events[1..]))
  }

  function Run(s: Tracker, events: seq<Event>): Tracker
    decreases |events|
  {
    if events == [] then s else Run(Step(s, events[0]), events[1..])
  }

  // ---------------------------------------------------------------- at most one current request

  /** Flying requests are of this epoch or earlier ones, and one of them is of this epoch exactly while the
      tracker waits for it. A scheduled timer counts as a retry. */
  ghost predicate Valid(s: Tracker) {
    && (forall e :: e in s.flying ==> e <= s.epoch)
    && s.flying[s.epoch] == (if s.pending then 1 else 0)
    && s.retryCount <= MAX_POSITION_RETRIES
    && (s.retryPending ==> 0 < s.retryCount)
  }

  /** No request is old enough for its generation to come round again. */
  predicate Unwrapped(s: Tracker) {
    forall e :: e in s.flying ==> s.epoch < e + U64_MODULUS - 1
  }

  /** A result counts exactly when it belongs to the current epoch. */
  lemma OnlyCurrentResultsCount(s: Tracker, e: Event)
    requires Valid(s) && Unwrapped(s) && e.Update? && Enabled(s, e)
    ensures Generation(e.epoch) == Generation(s.epoch) <==> e.epoch == s.epoch
    ensures e.epoch != s.epoch ==> Step(s, e) == s.(flying := s.flying - multiset{e.epoch})
  {
    SameGeneration(e.epoch, s.epoch);
  }

  lemma RequestIsValid(s: Tracker, attempt: Attempt)
    requires Valid(s)
    ensures Valid(Requested(s, attempt)) && Requested(s, attempt).epoch == s.epoch
  {
  }

  lemma RenderingIsValid(s: Tracker, outside: Outside)
    requires Valid(s)
    ensures Valid(Rendered(s, outside)) && Rendered(s, outside).epoch == s.epoch
  {
    RequestIsValid(s, outside.attempt);
  }

  lemma StepIsValid(s: Tracker, e: Event)
    requires Valid(s) && Unwrapped(s) && Enabled(s, e)
    ensures Valid(Step(s, e))
    ensures Step(s, e).epoch <= s.epoch + 1
  {
    match e {
      case Snapshot(composing, outside) =>
        if composing {
          RenderingIsValid(s.(dirty := true, hasSnapshot := true), outside);
        }
      case Layout(outside) => RenderingIsValid(s.(dirty := true), outside);
      case Reload(outside) => RenderingIsValid(s, outside);
      case Timer(outside) => RenderingIsValid(Fired(s), outside);
      case Update(epoch, point, outside) =>
        OnlyCurrentResultsCount(s, e);
        if epoch == s.epoch {
          RenderingIsValid(Landed(s, epoch, point), outside);
        }
      case _ =>
    }
  }

  /** Over every run with fewer than 2^64 - 1 events, no two requests of the current generation fly. */
  lemma {:induction false} NeverTwoCurrentRequests(s: Tracker, events: seq<Event>)
    requires Valid(s) && s.epoch + |events| < U64_MODULUS - 1 && Possible(s, events)
    ensures var out := Run(s, events);
            && Valid(out) && out.epoch <= s.epoch + |events|
            && out.flying[out.epoch] <= 1
            && (out.flying[out.epoch] == 1 <==> out.pending)
            && (forall e :: e in out.flying && Generation(e) == Generation(out.epoch) ==> e == out.epoch)
    decreases |events|
  {
    if events == [] {
      forall e | e in s.flying && Generation(e) == Generation(s.epoch)
        ensures e == s.epoch
      {
        SameGeneration(e, s.epoch);
      }
    } else {
      StepIsValid(s, events[0]);
      NeverTwoCurrentRequests(Step(s, events[0]), events[1..]);
    }
  }

  // ---------------------------------------------------------------- quiet runs

  predicate Quiet(e: Event) { e.Timer? || e.Update? }

  /** How many timer messages can still come: those that may be queued, and as long as there is no result,
      those of timers that may yet be started. */
  function Timers(s: Tracker): nat
    requires s.retryCount <= MAX_POSITION_RETRIES
  {
    Messages(s) + if s.result.Some? then 0 else MAX_POSITION_RETRIES - s.retryCount
  }

  /** A request waits for the one in flight to come back. */
  function Deferred(s: Tracker): nat { if s.dirty && s.pending then 1 else 0 }

  /** How many requests can still be tried without news from outside. */
  function Tries(s: Tracker): nat
    requires s.retryCount <= MAX_POSITION_RETRIES
  {
    Deferred(s) + Timers(s)
  }

  /** How many timers and results can still come in without news from outside. */
  function Steps(s: Tracker): nat
    requires s.retryCount <= MAX_POSITION_RETRIES
  {
    |s.flying| + 2 * Deferred(s) + 3 * Timers(s)
  }

  /** The delay that may still be scheduled. */
  function DelayLeft(s: Tracker): int {
    if s.result.Some? || s.retryCount > MAX_POSITION_RETRIES then 0 else 16 * (Power(6) - Power(s.retryCount))
  }

  lemma PowerGrows(n: nat)
    requires n <= 6
    ensures 1 <= Power(n) <= 64 && Power(6) == 64
  {
    assert Power(1) == 2 && Power(2) == 4 && Power(3) == 8 && Power(4) == 16 && Power(5) == 32;
  }

  lemma DelayLeftIsPaid(attempt: nat)
    requires attempt < 6
    ensures RetryDelay(attempt).value + 16 * (Power(6) - Power(attempt + 1)) == 16 * (Power(6) - Power(attempt))
  {
  }

  lemma RequestPaysTries(s: Tracker, attempt: Attempt)
    requires s.retryCount <= MAX_POSITION_RETRIES
    ensures var out := Requested(s, attempt);
            && s.attempts <= out.attempts && out.attempts - s.attempts + Deferred(out) <= (if s.dirty then 1 else 0)
            && |out.flying| <= |s.flying| + (out.attempts - s.attempts)
            && out == s.(dirty := out.dirty, pending := out.pending, needsRetry := out.needsRetry, flying := out.flying, attempts := out.attempts)
  {
  }

  lemma SchedulingKeepsTries(s: Tracker, outside: Outside)
    requires s.retryCount <= MAX_POSITION_RETRIES
    ensures var out := if s.result.None? then Scheduled(s.(needsRetry := true), outside.timerStarts) else Cleared(s);
            && out.retryCount <= MAX_POSITION_RETRIES && Timers(out) <= Timers(s) && Deferred(out) == Deferred(s)
            && out.epoch == s.epoch && out.result == s.result && out.attempts == s.attempts && out.flying == s.flying
  {
  }

  lemma RenderingPaysTries(s: Tracker, outside: Outside)
    requires Valid(s)
    ensures var out := Rerendered(s, outside);
            && out.retryCount <= MAX_POSITION_RETRIES && out.epoch == s.epoch && out.result == s.result
            && s.attempts <= out.attempts && out.attempts - s.attempts + Deferred(out) <= (if s.dirty then 1 else 0)
            && Timers(out) <= Timers(s)
            && |out.flying| <= |s.flying| + (out.attempts - s.attempts)
  {
    RequestPaysTries(s, outside.attempt);
    SchedulingKeepsTries(Requested(s, outside.attempt), outside);
  }

  lemma SchedulingPaysDelay(s: Tracker, timerStarts: bool)
    requires s.retryCount <= MAX_POSITION_RETRIES && s.result.None?
    ensures var out := Scheduled(s, timerStarts);
            s.delay <= out.delay && out.delay + DelayLeft(out) <= s.delay + DelayLeft(s)
  {
    if s.retryCount < 6 {
      DelayLeftIsPaid(s.retryCount);
    }
  }

  lemma RenderingPaysDelay(s: Tracker, outside: Outside)
    requires Valid(s)
    ensures var out := Rerendered(s, outside);
            s.delay <= out.delay && out.delay + DelayLeft(out) <= s.delay + DelayLeft(s)
  {
    var asked := Requested(s, outside.attempt);
    assert asked.retryCount == s.retryCount && asked.delay == s.delay && asked.result == s.result;
    if asked.result.None? {
      SchedulingPaysDelay(asked.(needsRetry := true), outside.timerStarts);
    }
  }

  lemma RenderingPays(s: Tracker, outside: Outside)
    requires Valid(s)
    ensures Paid(s, if s.dirty then 1 else 0, Rerendered(s, outside))
    ensures Rerendered(s, outside).epoch == s.epoch && Rerendered(s, outside).result == s.result
    ensures |Rerendered(s, outside).flying| <= |s.flying| + (Rerendered(s, outside).attempts - s.attempts)
  {
    RenderingPaysTries(s, outside);
    RenderingPaysDelay(s, outside);
  }

  /** From `s` to `out`: requests paid from a stock, timers and delay from what was left. */
  ghost predicate Paid(s: Tracker, stock: nat, out: Tracker)
    requires s.retryCount <= MAX_POSITION_RETRIES
  {
    && out.retryCount <= MAX_POSITION_RETRIES
    && s.attempts <= out.attempts && out.attempts - s.attempts + Deferred(out) <= stock
    && Timers(out) <= Timers(s)
    && s.delay <= out.delay && out.delay + DelayLeft(out) <= s.delay + DelayLeft(s)
  }

  /** A quiet step pays for the requests, the timers and the delay it adds, and brings silence nearer. */
  ghost predicate Settles(s: Tracker, out: Tracker)
    requires s.retryCount <= MAX_POSITION_RETRIES
  {
    && out.retryCount <= MAX_POSITION_RETRIES && out.epoch == s.epoch
    && s.attempts <= out.attempts && out.attempts + Tries(out) <= s.attempts + Tries(s)
    && s.delay <= out.delay && out.delay + DelayLeft(out) <= s.delay + DelayLeft(s)
    && Steps(out) < Steps(s)
  }

  lemma TimerSettles(s: Tracker, outside: Outside)
    requires Valid(s) && Messages(s) > 0
    ensures Settles(s, Step(s, Timer(outside)))
  {
    var fired := Fired(s);
    assert Timers(fired) == Timers(s) - 1 && DelayLeft(fired) == DelayLeft(s);
    RenderingPays(fired, outside);
  }

  lemma UpdateSettles(s: Tracker, epoch: nat, point: Option<Point>, outside: Outside)
    requires Valid(s) && Unwrapped(s) && epoch in s.flying
    ensures Settles(s, Step(s, Update(epoch, point, outside)))
  {
    OnlyCurrentResultsCount(s, Update(epoch, point, outside));
    PowerGrows(s.retryCount);
    assert |s.flying - multiset{epoch}| == |s.flying| - 1;
    if epoch == s.epoch {
      var landed := Landed(s, epoch, point);
      assert Timers(landed) <= Timers(s) && DelayLeft(landed) <= DelayLeft(s);
      RenderingPays(landed, outside);
    }
  }

  lemma QuietStepSettles(s: Tracker, e: Event)
    requires Valid(s) && Unwrapped(s) && Quiet(e) && Enabled(s, e)
    ensures Settles(s, Step(s, e))
  {
    match e {
      case Timer(outside) => TimerSettles(s, outside);
      case Update(epoch, point, outside) => UpdateSettles(s, epoch, point, outside);
    }
  }

  /** With no news from outside the tracker falls silent: a run of timers and results is at most this
      long, and tries and schedules at most this much. */
  lemma {:induction false} QuietRunEnds(s: Tracker, events: seq<Event>)
    requires Valid(s) && s.epoch < U64_MODULUS - 1
    requires Possible(s, events) && forall i :: 0 <= i < |events| ==> Quiet(events[i])
    ensures var out := Run(s, events);
            && out.attempts <= s.attempts + Tries(s)
            && out.delay <= s.delay + DelayLeft(s)
            && |events| <= Steps(s)
    decreases |events|
  {
    PowerGrows(s.retryCount);
    if events != [] {
      assert Quiet(events[0]);
      StepIsValid(s, events[0]);
      QuietStepSettles(s, events[0]);
      QuietRunEnds(Step(s, events[0]), events[1..]);
    }
  }

  lemma NewsPays(s: Tracker, news: Event)
    requires Valid(s) && Unwrapped(s) && Enabled(s, news) && !Quiet(news)
    ensures var out := Step(s, news);
            && out.retryCount <= MAX_POSITION_RETRIES
            && out.attempts + Tries(out) <= s.attempts + 7 + s.stale
            && out.delay + DelayLeft(out) <= s.delay + 1008
  {
    PowerGrows(s.retryCount);
    match news {
      case Snapshot(composing, outside) =>
        if composing {
          RenderingPays(s.(dirty := true, hasSnapshot := true), outside);
        }
      case Layout(outside) => RenderingPays(s.(dirty := true), outside);
      case Reload(outside) => RenderingPays(s, outside);
      case _ =>
    }
  }

  /** After any news, and until the next: at most seven request attempts, the one the news itself causes
      included, and one for each message of a timer killed before; and at most 1008 milliseconds of
      scheduled delay. */
  lemma AtMostSevenAttempts(s: Tracker, news: Event, events: seq<Event>)
    requires Valid(s) && s.epoch + 1 < U64_MODULUS - 1 && Enabled(s, news) && !Quiet(news)
    requires Possible(Step(s, news), events) && forall i :: 0 <= i < |events| ==> Quiet(events[i])
    ensures var out := Run(Step(s, news), events);
            out.attempts <= s.attempts + 7 + s.stale && out.delay <= s.delay + 1008
  {
    StepIsValid(s, news);
    NewsPays(s, news);
    QuietRunEnds(Step(s, news), events);
  }

  function News(events: seq<Event>): nat
    decreases |events|
  {
    if events == [] then 0 else (if Quiet(events[0]) then 0 else 1) + News(events[1..])
  }

  /** Over every run, stale messages included: at most seven attempts and 1008 milliseconds for each news, and
      what could still be tried at the beginning. */
  lemma {:induction false} AttemptsArePaidByNews(s: Tracker, events: seq<Event>)
    requires Valid(s) && s.epoch + |events| < U64_MODULUS - 1 && Possible(s, events)
    ensures var out := Run(s, events);
            && out.attempts <= s.attempts + Tries(s) + 7 * News(events)
            && out.delay <= s.delay + DelayLeft(s) + 1008 * News(events)
    decreases |events|
  {
    PowerGrows(s.retryCount);
    if events != [] {
      var next := Step(s, events[0]);
      StepIsValid(s, events[0]);
      if Quiet(events[0]) {
        QuietStepSettles(s, events[0]);
      } else {
        NewsPays(s, events[0]);
      }
      AttemptsArePaidByNews(next, events[1..]);
    }
  }

  /** Killing a timer does not take back its message: a timer runs, hiding kills it, and its message asks for
      the place again. */
  lemma StaleTimerAsksAgain(s: Tracker, outside: Outside)
    requires Valid(s) && s.hasSnapshot && s.retryPending
    ensures Possible(s, [Hide, Timer(outside)])
    ensures Run(s, [Hide, Timer(outside)]).attempts == s.attempts + 1 && !Step(s, Hide).retryPending
  {
    assert [Hide, Timer(outside)][1..] == [Timer(outside)] && [Timer(outside)][1..] == [];
    assert Possible(Step(s, Hide), [Timer(outside)]);
    assert Run(Step(s, Hide), [Timer(outside)]) == Step(Step(s, Hide), Timer(outside));
  }

  /** Hiding does not forget a snapshot that is kept, and makes none: a layout change afterwards asks for its
      place again exactly when there was one, and otherwise makes no attempt and schedules nothing. */
  lemma LayoutAfterHideAsksAgain(s: Tracker, outside: Outside)
    ensures var out := Run(s, [Hide, Layout(outside)]);
            && out.attempts == s.attempts + (if s.hasSnapshot then 1 else 0)
            && (!s.hasSnapshot ==> out == Cleared(Invalidated(s)) && out.delay == s.delay && !out.retryPending)
  {
    assert [Hide, Layout(outside)][1..] == [Layout(outside)];
    assert Run(Step(s, Hide), [Layout(outside)]) == Step(Step(s, Hide), Layout(outside));
  }

  // ---------------------------------------------------------------- the inline anchor

  function OrElse<T>(a: Option<T>, b: Option<T>): Option<T> { if a.Some? then a else b }

  function XOf(p: Option<Point>): Option<int> { if p.Some? then Some(p.value.x) else None }

  function YOf(p: Option<Point>): Option<int> { if p.Some? then Some(p.value.y) else None }

  /** The horizontal origin stays where it was first seen; the vertical one follows the glyphs. */
  function ResolveInlineAnchor(extent: Option<Point>, cached: Option<Point>, initialCaret: Option<Point>): Option<Point> {
    var x := OrElse(XOf(cached), OrElse(XOf(extent), XOf(initialCaret)));
    var y := OrElse(YOf(extent), OrElse(YOf(cached), YOf(initialCaret)));
    if x.Some? && y.Some? then Some(Point(x.value, y.value)) else None
  }

  /** The anchor after a series of renderings of one composition, from the extents known at each and
      the caret consulted while nothing else is known. */
  function Anchored(cached: Option<Point>, extents: seq<Option<Point>>, caret: Option<Point>): Option<Point>
    decreases |extents|
  {
    if extents == [] then cached
    else
      var consulted := if extents[0].None? && cached.None? then caret else None;
      Anchored(ResolveInlineAnchor(extents[0], cached, consulted), extents[1..], caret)
  }

  function LastKnown(extents: seq<Option<Point>>, otherwise: Point): Point {
    if extents == [] then otherwise
    else if extents[|extents| - 1].Some? then extents[|extents| - 1].value
    else LastKnown(extents[..|extents| - 1], otherwise)
  }

  lemma {:induction false} LastKnownFromFront(extents: seq<Option<Point>>, otherwise: Point)
    requires extents != []
    ensures LastKnown(extents, otherwise)
         == LastKnown(extents[1..], if extents[0].Some? then extents[0].value else otherwise)
    decreases |extents|
  {
    if |extents| > 1 && extents[|extents| - 1].None? {
      assert extents[..|extents| - 1][1..] == extents[1..][..|extents| - 2];
      LastKnownFromFront(extents[..|extents| - 1], otherwise);
    }
  }

  /** However many renderings follow, an anchor keeps its x, and its y is that of the last extent. */
  lemma {:induction false} AnchorStaysPinned(anchor: Point, extents: seq<Option<Point>>, caret: Option<Point>)
    ensures Anchored(Some(anchor), extents, caret) == Some(Point(anchor.x, LastKnown(extents, anchor).y))
    decreases |extents|
  {
    if extents != [] {
      var next := ResolveInlineAnchor(extents[0], Some(anchor), None).value;
      AnchorStaysPinned(next, extents[1..], caret);
      LastKnownFromFront(extents, anchor);
      LastKnownSameY(extents[1..], next, if extents[0].Some? then extents[0].value else anchor);
    }
  }

  lemma {:induction false} LastKnownSameY(extents: seq<Option<Point>>, a: Point, b: Point)
    requires a.y == b.y
    ensures LastKnown(extents, a).y == LastKnown(extents, b).y
    decreases |extents|
  {
    if extents != [] && extents[|extents| - 1].None? {
      LastKnownSameY(extents[..|extents| - 1], a, b);
    }
  }

  // ---------------------------------------------------------------- the window's cells

  /** The cells of the window context; what flies, and the counts of attempts and delay, are kept for
      the specification. */
  class PositionCells {
    var generation: nat
    var dirty: bool
    var pending: bool
    var result: Option<Point>
    var needsRetry: bool
    var retryCount: nat
    var retryPending: bool
    var hasSnapshot: bool
    ghost var epoch: nat
    ghost var stale: nat
    ghost var flying: multiset<nat>
    ghost var attempts: nat
    ghost var delay: nat

    constructor ()
      ensures Consistent() && Model() == FRESH
    {
      generation, dirty, pending, result := 1, true, false, None;
      needsRetry, retryCount, retryPending, hasSnapshot := false, 0, false, false;
      epoch, stale, flying, attempts, delay := 0, 0, multiset{}, 0, 0;
    }

    ghost predicate Consistent()
      reads `generation, `epoch
    {
      generation == Generation(epoch)
    }

    ghost function Model(): Tracker
      reads this
    {
      Tracker(epoch, dirty, pending, result, needsRetry, retryCount, retryPending, hasSnapshot, stale, flying, attempts, delay)
    }

    method RequestPositionExtent(attempt: Attempt)
      requires Consistent()
      modifies this
      ensures Consistent() && Model() == Requested(old(Model()), attempt)
    {
      if !dirty || pending {
        return;
      }
      dirty := false;
      attempts := attempts + 1;
      if attempt == NotReady {
        dirty := true;
        needsRetry := true;
        return;
      }
      pending := true;
      if attempt == Rejected {
        pending := false;
        dirty := true;
        needsRetry := true;
      } else {
        flying := flying + multiset{epoch};
      }
    }

    method SchedulePositionRetry(timerStarts: bool)
      requires Consistent()
      modifies this
      ensures Consistent() && Model() == Scheduled(old(Model()), timerStarts)
    {
      if retryPending {
        return;
      }
      var wait := RetryDelay(retryCount);
      if wait.None? {
        return;
      }
      if timerStarts {
        retryCount := retryCount + 1;
        retryPending := true;
        delay := delay + wait.value;
      }
    }

    method ClearPositionRetry()
      requires Consistent()
      modifies this
      ensures Consistent() && Model() == Cleared(old(Model()))
    {
      if retryPending {
        stale := stale + 1;
      }
      retryPending, retryCount, needsRetry := false, 0, false;
    }

    method InvalidatePosition()
      requires Consistent()
      modifies this
      ensures Consistent() && Model() == Invalidated(old(Model()))
    {
      GenerationSteps(epoch);
      generation := NextGeneration(generation);
      epoch := epoch + 1;
      pending, dirty, result := false, true, None;
    }

    /** The placing part of `handle_snapshot`, for a kept snapshot. */
    method PlaceWindow(outside: Outside)
      requires Consistent()
      modifies this
      ensures Consistent() && Model() == Rendered(old(Model()), outside)
    {
      RequestPositionExtent(outside.attempt);
      needsRetry := result.None?;
      if needsRetry {
        SchedulePositionRetry(outside.timerStarts);
      } else {
        ClearPositionRetry();
      }
    }

    method HandleSnapshot(composing: bool, outside: Outside)
      requires Consistent()
      modifies this
      ensures Consistent() && Model() == Step(old(Model()), Snapshot(composing, outside))
    {
      dirty := true;
      if !composing {
        InvalidatePosition();
        ClearPositionRetry();
        return;
      }
      hasSnapshot := true;
      PlaceWindow(outside);
    }

    method RerenderCurrentSnapshot(outside: Outside)
      requires Consistent()
      modifies this
      ensures Consistent() && Model() == Rerendered(old(Model()), outside)
    {
      if hasSnapshot {
        PlaceWindow(outside);
      }
    }

    method OnLayoutChange(outside: Outside)
      requires Consistent()
      modifies this
      ensures Consistent() && Model() == Step(old(Model()), Layout(outside))
    {
      dirty := true;
      RerenderCurrentSnapshot(outside);
    }

    method OnTimer(outside: Outside)
      requires Consistent()
      modifies this
      ensures Consistent() && Model() == Step(old(Model()), Timer(outside))
    {
      stale := if retryPending then stale else if stale > 0 then stale - 1 else 0;
      retryPending := false;
      dirty := true;
      RerenderCurrentSnapshot(outside);
    }

    /** A result for a request made in epoch `sent`, which carries that epoch's generation; `point` is
        what the measured rectangle, if any, normalises to. */
    method HandleTextExtentUpdate(ghost sent: nat, update: nat, point: Option<Point>, outside: Outside)
      requires Consistent() && sent in flying && update == Generation(sent)
      modifies this
      ensures Consistent() && Model() == Step(old(Model()), Update(sent, point, outside))
    {
      flying := flying - multiset{sent};
      if update == generation {
        Land(point);
        RerenderCurrentSnapshot(outside);
      }
    }

    /** The cells after a result of the current generation. */
    method Land(point: Option<Point>)
      modifies `pending, `result, `needsRetry
      ensures !pending && result == (if point.Some? then point else old(result)) && needsRetry == point.None?
    {
      pending := false;
      if point.Some? {
        result := point;
        needsRetry := false;
      } else {
        needsRetry := true;
      }
    }

    method Hide()
      requires Consistent()
      modifies this
      ensures Consistent() && Model() == Step(old(Model()), Event.Hide)
    {
      InvalidatePosition();
      ClearPositionRetry();
    }
  }
}
