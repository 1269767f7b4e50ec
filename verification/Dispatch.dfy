/** How the I/O thread turns engine messages into window posts, holding back one `SetPreedit` so that
    the next candidate snapshot can add the syllable breaks to it. */
module Dispatch {
  import opened Wrappers
  import opened Numbers
  import opened Protocol
  import opened Separators
  import FrontendSession

  datatype PostedAction = PostedAction(action: PlatformAction, token: CommitToken)
  {
    predicate IsPreedit() { action.kind.SetPreedit? }
  }

  datatype Post = Act(posted: PostedAction) | Show(snapshot: Snapshot)

  datatype ReconnectReason = IdentityError

  datatype Connection = Connection(session: FrontendSession.State, pending: Option<PostedAction>, posted: seq<Post>)

  // ---------------------------------------------------------------- one message

  function FirstWithId(candidates: seq<Candidate>, id: U64): Option<Candidate> {
    if candidates == [] then None
    else if candidates[0].id == id then Some(candidates[0])
    else FirstWithId(candidates[1..], id)
  }

  function HighlightedAnnotation(snapshot: Snapshot): Option<string> {
    match snapshot.highlighted
    case None => None
    case Some(id) =>
      match FirstWithId(snapshot.candidates, id)
      case None => None
      case Some(candidate) => candidate.annotation
  }

  function SynchronizedPreedit(raw: string, snapshot: Snapshot): string {
    match HighlightedAnnotation(snapshot)
    case None => raw
    case Some(annotation) => Project(raw, annotation)
  }

  /** A held-back preedit as the snapshot shows it. */
  function Synchronize(posted: PostedAction, snapshot: Snapshot): PostedAction {
    match posted.action.kind
    case SetPreedit(text, _) =>
      var shown := SynchronizedPreedit(text, snapshot);
      posted.(action := posted.action.(kind := SetPreedit(shown, |shown|)))
    case _ => posted
  }

  function ToPosted(header: Header, action: PlatformAction): PostedAction {
    PostedAction(action, CommitToken(header.session, header.epoch, action.id))
  }

  function Dispatch(c: Connection, message: EngineMessage): (Connection, Option<ReconnectReason>) {
    match FrontendSession.Observe(c.session, message)
    case Failure(StaleEpoch) => (c, None)
    case Failure(_) => (c, Some(IdentityError))
    case Success(session) =>
      var next := c.(session := session);
      match message
      case CandidateSnapshot(_, snapshot) =>
        var flushed := if c.pending.Some? then [Act(Synchronize(c.pending.value, snapshot))] else [];
        (next.(pending := None, posted := c.posted + flushed + [Show(snapshot)]), None)
      case ActionRequest(header, action) =>
        var posted := ToPosted(header, action);
        if posted.IsPreedit() then
          var previous := if c.pending.Some? then [Act(c.pending.value)] else [];
          (next.(pending := Some(posted), posted := c.posted + previous), None)
        else
          (next.(posted := c.posted + [Act(posted)]), None)
      case _ => (next, None)
  }

  /** A run of messages; it stops at the first one that forces a reconnect. */
  function Deliver(c: Connection, messages: seq<EngineMessage>): Connection
    decreases |messages|
  {
    if messages == [] then c
    else
      var (next, reason) := Dispatch(c, messages[0]);
      if reason.Some? then next else Deliver(next, messages[1..])
  }

  // ---------------------------------------------------------------- what was accepted

  /** What an accepted message asks to be posted, with no holding back and no rewriting. */
  function Request(session: FrontendSession.State, message: EngineMessage): seq<Post> {
    if FrontendSession.Observe(session, message).Failure? then []
    else
      match message
      case CandidateSnapshot(_, snapshot) => [Show(snapshot)]
      case ActionRequest(header, action) => [Act(ToPosted(header, action))]
      case _ => []
  }

  function Requested(c: Connection, messages: seq<EngineMessage>): seq<Post>
    decreases |messages|
  {
    if messages == [] then []
    else
      var (next, reason) := Dispatch(c, messages[0]);
      Request(c.session, messages[0]) + if reason.Some? then [] else Requested(next, messages[1..])
  }

  // ---------------------------------------------------------------- views of a log

  function Actions(log: seq<Post>): seq<PostedAction> {
    if log == [] then []
    else Actions(log[..|log| - 1]) + match log[|log| - 1] case Act(p) => [p] case Show(_) => []
  }

  function Preedits(log: seq<Post>): seq<PostedAction> {
    if log == [] then []
    else Preedits(log[..|log| - 1]) + match log[|log| - 1] case Act(p) => if p.IsPreedit() then [p] else [] case Show(_) => []
  }

  function Others(log: seq<Post>): seq<PostedAction> {
    if log == [] then []
    else Others(log[..|log| - 1]) + match log[|log| - 1] case Act(p) => if p.IsPreedit() then [] else [p] case Show(_) => []
  }

  function Snapshots(log: seq<Post>): seq<Snapshot> {
    if log == [] then []
    else Snapshots(log[..|log| - 1]) + match log[|log| - 1] case Act(_) => [] case Show(s) => [s]
  }

  /** For every snapshot of a log, how many preedits come before it. */
  function PreeditsBeforeSnapshots(log: seq<Post>): seq<nat> {
    if log == [] then []
    else
      var before := log[..|log| - 1];
      PreeditsBeforeSnapshots(before) + if log[|log| - 1].Show? then [|Preedits(before)|] else []
  }

  /** The preedit a log leaves waiting: the last one, if no snapshot came after it. */
  function Waiting(log: seq<Post>): Option<PostedAction> {
    if log == [] then None
    else
      match log[|log| - 1]
      case Show(_) => None
      case Act(p) => if p.IsPreedit() then Some(p) else Waiting(log[..|log| - 1])
  }

  /** Candidate `i` is the highlighted one: the first with the highlighted id. */
  ghost predicate Highlights(snapshot: Snapshot, i: nat) {
    && i < |snapshot.candidates| && snapshot.highlighted == Some(snapshot.candidates[i].id)
    && forall j :: 0 <= j < i ==> snapshot.candidates[j].id != snapshot.candidates[i].id
  }

  /** A held preedit as the snapshot after it shows it: with the syllable breaks of the highlighted
      candidate's annotation, if there is one, and the cursor at the end. Without a highlighted
      candidate, or without an annotation on it, the text stays as it is. */
  ghost predicate ShownWith(held: PostedAction, snapshot: Snapshot, shown: PostedAction) {
    && held.action.kind.SetPreedit? && shown.action.kind.SetPreedit?
    && var text, out := held.action.kind.text, shown.action.kind.text;
       && shown == PostedAction(held.action.(kind := SetPreedit(out, |out|)), held.token)
       && (forall i: nat :: Highlights(snapshot, i) ==>
             match snapshot.candidates[i].annotation
             case Some(annotation) => out == Project(text, annotation)
             case None => out == text)
       && ((forall i: nat :: !Highlights(snapshot, i)) ==> out == text)
  }

  /** The preedits of a log as they are to be shown: one that is followed by a snapshot as that snapshot
      shows it, one that is followed by another preedit as it is. */
  ghost predicate ShownAs(log: seq<Post>, shown: seq<PostedAction>)
    decreases |log|
  {
    if log == [] then shown == []
    else
      var before, last := log[..|log| - 1], log[|log| - 1];
      if Waiting(before).None? || (last.Act? && !last.posted.IsPreedit()) then ShownAs(before, shown)
      else
        && shown != [] && ShownAs(before, shown[..|shown| - 1])
        && match last
           case Show(snapshot) => ShownWith(Waiting(before).value, snapshot, shown[|shown| - 1])
           case Act(_) => shown[|shown| - 1] == Waiting(before).value
  }

  lemma WaitingSnoc(log: seq<Post>, post: Post)
    ensures Waiting(log + [post]) == match post case Show(_) => None case Act(p) => if p.IsPreedit() then Some(p) else Waiting(log)
  {
    assert (log + [post])[..|log|] == log;
  }

  /** A post that releases no held preedit. */
  lemma ShownStays(log: seq<Post>, shown: seq<PostedAction>, post: Post)
    requires ShownAs(log, shown) && (Waiting(log).None? || (post.Act? && !post.posted.IsPreedit()))
    ensures ShownAs(log + [post], shown)
  {
    assert (log + [post])[..|log|] == log;
  }

  /** A post that does. */
  lemma ShownSnoc(log: seq<Post>, shown: seq<PostedAction>, post: Post, next: PostedAction)
    requires ShownAs(log, shown) && Waiting(log).Some?
    requires match post
             case Show(snapshot) => ShownWith(Waiting(log).value, snapshot, next)
             case Act(p) => p.IsPreedit() && next == Waiting(log).value
    ensures ShownAs(log + [post], shown + [next])
  {
    assert (log + [post])[..|log|] == log && (shown + [next])[..|shown|] == shown;
  }

  lemma LogSnoc(log: seq<Post>, post: Post)
    ensures Actions(log + [post]) == Actions(log) + match post case Act(p) => [p] case Show(_) => []
    ensures Preedits(log + [post]) == Preedits(log) + match post case Act(p) => if p.IsPreedit() then [p] else [] case Show(_) => []
    ensures Others(log + [post]) == Others(log) + match post case Act(p) => if p.IsPreedit() then [] else [p] case Show(_) => []
    ensures Snapshots(log + [post]) == Snapshots(log) + match post case Act(_) => [] case Show(s) => [s]
    ensures PreeditsBeforeSnapshots(log + [post])
         == PreeditsBeforeSnapshots(log) + if post.Show? then [|Preedits(log)|] else []
  {
    assert (log + [post])[..|log|] == log;
  }

  // ---------------------------------------------------------------- conservation

  /** `shown` is `accepted` itself, or `accepted` with only separators inserted and the cursor moved to
      the end of its text. */
  ghost predicate Renders(accepted: PostedAction, shown: PostedAction) {
    || shown == accepted
    || (&& accepted.action.kind.SetPreedit? && shown.action.kind.SetPreedit?
        && shown.token == accepted.token
        && shown.action == accepted.action.(kind := shown.action.kind)
        && shown.action.kind.cursor == |shown.action.kind.text|
        && (shown.action.kind.text == accepted.action.kind.text
            || exists annotation :: shown.action.kind.text == Project(accepted.action.kind.text, annotation)))
  }

  ghost predicate RendersAll(accepted: seq<PostedAction>, shown: seq<PostedAction>) {
    |accepted| == |shown| && forall i :: 0 <= i < |accepted| ==> Renders(accepted[i], shown[i])
  }

  function Held(pending: Option<PostedAction>): seq<PostedAction> {
    if pending.Some? then [pending.value] else []
  }

  /** Everything accepted is posted or held, in order within its kind, and nothing else is; every preedit is
      posted as the snapshot after it shows it, or unchanged when another preedit comes first. */
  ghost predicate Conserves(c: Connection, accepted: seq<Post>) {
    && ShownAs(accepted, Preedits(c.posted)) && c.pending == Waiting(accepted)
    && (c.pending.Some? ==> c.pending.value.IsPreedit())
    && Others(c.posted) == Others(accepted)
    && Snapshots(c.posted) == Snapshots(accepted)
    && RendersAll(Preedits(accepted), Preedits(c.posted) + Held(c.pending))
    && (c.pending.Some? ==> Preedits(accepted)[|Preedits(accepted)| - 1] == c.pending.value)
    && PreeditsBeforeSnapshots(c.posted) == PreeditsBeforeSnapshots(accepted)
  }

  lemma {:induction false} FirstWithIdIsFirst(candidates: seq<Candidate>, id: U64, i: nat)
    requires i < |candidates| && candidates[i].id == id
    requires forall j :: 0 <= j < i ==> candidates[j].id != id
    ensures FirstWithId(candidates, id) == Some(candidates[i])
  {
    if i > 0 {
      FirstWithIdIsFirst(candidates[1..], id, i - 1);
    }
  }

  lemma {:induction false} FirstWithIdIsSome(candidates: seq<Candidate>, id: U64) returns (i: nat)
    requires FirstWithId(candidates, id).Some?
    ensures i < |candidates| && candidates[i].id == id
    ensures forall j :: 0 <= j < i ==> candidates[j].id != id
  {
    if candidates[0].id == id {
      i := 0;
    } else {
      i := FirstWithIdIsSome(candidates[1..], id);
      i := i + 1;
    }
  }

  /** What a snapshot shows of the preedit before it. */
  lemma SynchronizeShows(posted: PostedAction, snapshot: Snapshot)
    requires posted.IsPreedit()
    ensures ShownWith(posted, snapshot, Synchronize(posted, snapshot))
  {
    forall i: nat | Highlights(snapshot, i)
      ensures HighlightedAnnotation(snapshot) == snapshot.candidates[i].annotation
    {
      FirstWithIdIsFirst(snapshot.candidates, snapshot.highlighted.value, i);
    }
    if HighlightedAnnotation(snapshot).Some? {
      var i := FirstWithIdIsSome(snapshot.candidates, snapshot.highlighted.value);
      assert Highlights(snapshot, i);
    }
  }

  /** So it changes nothing but separators and the cursor. */
  lemma SynchronizeRenders(posted: PostedAction, snapshot: Snapshot)
    requires posted.IsPreedit()
    ensures Renders(posted, Synchronize(posted, snapshot)) && Synchronize(posted, snapshot).IsPreedit()
  {
  }

  lemma SnapshotKeeps(c: Connection, accepted: seq<Post>, snapshot: Snapshot)
    requires Conserves(c, accepted)
    ensures var flushed := if c.pending.Some? then [Act(Synchronize(c.pending.value, snapshot))] else [];
            Conserves(c.(pending := None, posted := c.posted + flushed + [Show(snapshot)]), accepted + [Show(snapshot)])
  {
    if c.pending.Some? {
      FlushKeeps(c, accepted, snapshot);
    } else {
      LogSnoc(accepted, Show(snapshot));
      WaitingSnoc(accepted, Show(snapshot));
      ShownStays(accepted, Preedits(c.posted), Show(snapshot));
      LogSnoc(c.posted, Show(snapshot));
      assert c.posted + [] + [Show(snapshot)] == c.posted + [Show(snapshot)];
      assert Preedits(c.posted) + Held(None) == Preedits(c.posted);
    }
  }

  lemma FlushKeeps(c: Connection, accepted: seq<Post>, snapshot: Snapshot)
    requires Conserves(c, accepted) && c.pending.Some?
    ensures var shown := Act(Synchronize(c.pending.value, snapshot));
            Conserves(c.(pending := None, posted := c.posted + [shown] + [Show(snapshot)]), accepted + [Show(snapshot)])
  {
    var shown := Synchronize(c.pending.value, snapshot);
    LogSnoc(accepted, Show(snapshot));
    WaitingSnoc(accepted, Show(snapshot));
    SynchronizeShows(c.pending.value, snapshot);
    ShownSnoc(accepted, Preedits(c.posted), Show(snapshot), shown);
    SynchronizeRenders(c.pending.value, snapshot);
    LogSnoc(c.posted, Act(shown));
    LogSnoc(c.posted + [Act(shown)], Show(snapshot));
    RenderLast(Preedits(accepted), Preedits(c.posted), c.pending.value, shown);
    assert (Preedits(c.posted) + [shown]) + Held(None) == Preedits(c.posted) + [shown];
  }

  lemma PreeditKeeps(c: Connection, accepted: seq<Post>, p: PostedAction)
    requires Conserves(c, accepted) && p.IsPreedit()
    ensures var previous := if c.pending.Some? then [Act(c.pending.value)] else [];
            Conserves(c.(pending := Some(p), posted := c.posted + previous), accepted + [Act(p)])
  {
    LogSnoc(accepted, Act(p));
    WaitingSnoc(accepted, Act(p));
    if c.pending.Some? {
      ShownSnoc(accepted, Preedits(c.posted), Act(p), c.pending.value);
      LogSnoc(c.posted, Act(c.pending.value));
      assert Preedits(c.posted + [Act(c.pending.value)]) == Preedits(c.posted) + Held(c.pending);
    } else {
      ShownStays(accepted, Preedits(c.posted), Act(p));
      assert c.posted + [] == c.posted;
      assert Preedits(c.posted) + Held(None) == Preedits(c.posted);
    }
  }

  lemma PostKeeps(c: Connection, accepted: seq<Post>, p: PostedAction)
    requires Conserves(c, accepted) && !p.IsPreedit()
    ensures Conserves(c.(posted := c.posted + [Act(p)]), accepted + [Act(p)])
  {
    LogSnoc(c.posted, Act(p));
    LogSnoc(accepted, Act(p));
    WaitingSnoc(accepted, Act(p));
    ShownStays(accepted, Preedits(c.posted), Act(p));
    assert Preedits(c.posted + [Act(p)]) == Preedits(c.posted);
  }

  lemma DispatchConserves(c: Connection, accepted: seq<Post>, message: EngineMessage)
    requires Conserves(c, accepted)
    ensures Conserves(Dispatch(c, message).0, accepted + Request(c.session, message))
  {
    var observed := FrontendSession.Observe(c.session, message);
    if observed.Failure? || message.SessionOpened? || message.SessionClosed? {
      assert accepted + [] == accepted;
    } else {
      var next := c.(session := observed.value);
      match message
      case CandidateSnapshot(_, snapshot) => SnapshotKeeps(next, accepted, snapshot);
      case ActionRequest(header, action) =>
        var p := ToPosted(header, action);
        if p.IsPreedit() {
          PreeditKeeps(next, accepted, p);
        } else {
          PostKeeps(next, accepted, p);
        }
      case _ =>
    }
  }

  lemma Regroup(a: seq<Post>, b: seq<Post>, c: seq<Post>)
    ensures a + (b + c) == (a + b) + c
    ensures c == [] ==> a + (b + c) == a + b
  {
  }

  lemma {:induction false} DeliverConserves(c: Connection, accepted: seq<Post>, messages: seq<EngineMessage>)
    requires Conserves(c, accepted)
    ensures Conserves(Deliver(c, messages), accepted + Requested(c, messages))
    decreases |messages|
  {
    if messages == [] {
      assert accepted + [] == accepted;
    } else {
      var (next, reason) := Dispatch(c, messages[0]);
      var request := Request(c.session, messages[0]);
      DispatchConserves(c, accepted, messages[0]);
      if reason.None? {
        DeliverConserves(next, accepted + request, messages[1..]);
        Regroup(accepted, request, Requested(next, messages[1..]));
      } else {
        Regroup(accepted, request, []);
      }
    }
  }

  /** Main theorem: within one connection, every accepted preedit is posted or is the one still held,
      in order and changed only by separators and the matching cursor; every other action is posted
      exactly once, in order; and no snapshot overtakes a preedit. */
  lemma ConnectionConserves(session: FrontendSession.State, messages: seq<EngineMessage>)
    ensures var c := Connection(session, None, []);
            Conserves(Deliver(c, messages), Requested(c, messages))
  {
    var c := Connection(session, None, []);
    assert RendersAll(Preedits([]), Preedits(c.posted) + Held(None));
    DeliverConserves(c, [], messages);
    assert [] + Requested(c, messages) == Requested(c, messages);
  }

  // ---------------------------------------------------------------- tokens and refusals

  /** Every action posted or held carries the session and the epoch of the connection and its own id. */
  ghost predicate OwnTokens(c: Connection, session: U64, epoch: U64) {
    && c.session.session == session && c.session.epoch == epoch
    && (forall p :: p in c.posted && p.Act? ==> p.posted.token == CommitToken(session, epoch, p.posted.action.id))
    && (c.pending.Some? ==> c.pending.value.token == CommitToken(session, epoch, c.pending.value.action.id))
  }

  lemma DispatchKeepsTokens(c: Connection, message: EngineMessage, session: U64, epoch: U64)
    requires OwnTokens(c, session, epoch)
    ensures OwnTokens(Dispatch(c, message).0, session, epoch)
  {
  }

  lemma {:induction false} DeliverKeepsTokens(c: Connection, messages: seq<EngineMessage>, session: U64, epoch: U64)
    requires OwnTokens(c, session, epoch)
    ensures OwnTokens(Deliver(c, messages), session, epoch)
    decreases |messages|
  {
    if messages != [] {
      var (next, reason) := Dispatch(c, messages[0]);
      DispatchKeepsTokens(c, messages[0], session, epoch);
      if reason.None? {
        DeliverKeepsTokens(next, messages[1..], session, epoch);
      }
    }
  }

  /** The token that answers an action later names this connection's session and epoch, never those of
      another, and the action itself. */
  lemma TokensNameTheConnection(session: FrontendSession.State, messages: seq<EngineMessage>)
    ensures OwnTokens(Deliver(Connection(session, None, []), messages), session.session, session.epoch)
  {
    DeliverKeepsTokens(Connection(session, None, []), messages, session.session, session.epoch);
  }

  /** The connection is given up exactly for a rejection, for a message of another version, client or
      session, and for another deployment under the same epoch; nothing is posted then. */
  lemma ReconnectsExactly(c: Connection, message: EngineMessage)
    ensures Dispatch(c, message).1.Some? <==>
              || message.ProtocolRejected?
              || message.header.protocolVersion != CORE_PROTOCOL_VERSION
              || message.header.client != c.session.client || message.header.session != c.session.session
              || (message.header.epoch == c.session.epoch && c.session.deployment.Some?
                  && message.header.deployment != c.session.deployment.value)
    ensures Dispatch(c, message).1.Some? ==> Dispatch(c, message).0 == c
  {
  }

  /** A message of an older epoch changes nothing at all. */
  lemma StaleMessagesChangeNothing(c: Connection, message: EngineMessage)
    requires !message.ProtocolRejected?
    requires message.header.protocolVersion == CORE_PROTOCOL_VERSION
    requires message.header.client == c.session.client && message.header.session == c.session.session
    requires message.header.epoch != c.session.epoch
    ensures Dispatch(c, message) == (c, None) && Request(c.session, message) == []
  {
  }

  // ---------------------------------------------------------------- order across kinds

  /** A log after which a preedit is being held back. */
  predicate Holding(accepted: seq<Post>) { Waiting(accepted).Some? }

  /** Some other action was accepted while a preedit was being held back. */
  predicate Overtakes(accepted: seq<Post>) {
    accepted != [] &&
    var before := accepted[..|accepted| - 1];
    Overtakes(before) ||
    (Holding(before) && accepted[|accepted| - 1].Act? && !accepted[|accepted| - 1].posted.IsPreedit())
  }

  lemma OrderSnoc(accepted: seq<Post>, post: Post)
    ensures Holding(accepted + [post]) == (post.Act? && (post.posted.IsPreedit() || Holding(accepted)))
    ensures Overtakes(accepted + [post])
         == (Overtakes(accepted) || (Holding(accepted) && post.Act? && !post.posted.IsPreedit()))
  {
    assert (accepted + [post])[..|accepted|] == accepted;
  }

  /** The order kept so far; once another action has overtaken a preedit, two positions disagree for
      good about being a preedit. */
  ghost predicate OrderFollows(c: Connection, accepted: seq<Post>) {
    && (c.pending.Some? <==> Holding(accepted))
    && (c.pending.Some? ==> c.pending.value.IsPreedit())
    && (!Overtakes(accepted) ==>
          && RendersAll(Actions(accepted), Actions(c.posted) + Held(c.pending))
          && (c.pending.Some? ==> Actions(accepted)[|Actions(accepted)| - 1] == c.pending.value))
    && (Overtakes(accepted) ==>
          Disagree(Actions(accepted), Actions(c.posted)))
  }

  /** Flushing the held preedit, as far as actions go. */
  lemma FlushOrders(c: Connection, accepted: seq<Post>, shown: PostedAction)
    requires OrderFollows(c, accepted) && c.pending.Some?
    requires Renders(c.pending.value, shown) && shown.IsPreedit()
    ensures var actions := Actions(c.posted + [Act(shown)]);
            if Overtakes(accepted) then Disagree(Actions(accepted), actions) else RendersAll(Actions(accepted), actions)
  {
    LogSnoc(c.posted, Act(shown));
    if Overtakes(accepted) {
      DisagreementStays(Actions(accepted), Actions(c.posted), Actions(accepted), Actions(c.posted + [Act(shown)]));
    } else {
      RenderLast(Actions(accepted), Actions(c.posted), c.pending.value, shown);
    }
  }

  lemma SnapshotFollows(c: Connection, accepted: seq<Post>, shown: PostedAction, snapshot: Snapshot)
    requires OrderFollows(c, accepted) && c.pending.Some?
    requires Renders(c.pending.value, shown) && shown.IsPreedit()
    ensures OrderFollows(c.(pending := None, posted := c.posted + [Act(shown)] + [Show(snapshot)]), accepted + [Show(snapshot)])
  {
    var posted := c.posted + [Act(shown)];
    FlushOrders(c, accepted, shown);
    LogSnoc(posted, Show(snapshot));
    LogSnoc(accepted, Show(snapshot));
    OrderSnoc(accepted, Show(snapshot));
    assert Actions(posted) + Held(None) == Actions(posted);
  }

  lemma PreeditFollows(c: Connection, accepted: seq<Post>, p: PostedAction)
    requires OrderFollows(c, accepted) && c.pending.Some? && p.IsPreedit()
    ensures OrderFollows(c.(pending := Some(p), posted := c.posted + [Act(c.pending.value)]), accepted + [Act(p)])
  {
    var posted := c.posted + [Act(c.pending.value)];
    FlushOrders(c, accepted, c.pending.value);
    LogSnoc(accepted, Act(p));
    OrderSnoc(accepted, Act(p));
    if Overtakes(accepted) {
      DisagreementStays(Actions(accepted), Actions(posted), Actions(accepted + [Act(p)]), Actions(posted));
    }
  }

  /** Two action lists that disagree somewhere about being preedits. */
  ghost predicate Disagree(a: seq<PostedAction>, b: seq<PostedAction>) {
    exists i :: 0 <= i < |a| && i < |b| && a[i].IsPreedit() != b[i].IsPreedit()
  }

  lemma DisagreementStays(a: seq<PostedAction>, b: seq<PostedAction>, a': seq<PostedAction>, b': seq<PostedAction>)
    requires Disagree(a, b) && a <= a' && b <= b'
    ensures Disagree(a', b')
  {
    var i :| 0 <= i < |a| && i < |b| && a[i].IsPreedit() != b[i].IsPreedit();
    assert a'[i] == a[i] && b'[i] == b[i];
  }

  lemma RenderLast(accepted: seq<PostedAction>, posted: seq<PostedAction>, held: PostedAction, shown: PostedAction)
    requires RendersAll(accepted, posted + [held]) && accepted[|accepted| - 1] == held && Renders(held, shown)
    ensures RendersAll(accepted, posted + [shown])
  {
    assert forall i :: 0 <= i < |posted| ==> (posted + [held])[i] == (posted + [shown])[i];
  }

  lemma PlainFollows(c: Connection, accepted: seq<Post>, next: Post)
    requires OrderFollows(c, accepted) && c.pending.None?
    ensures OrderFollows(if next.Act? && next.posted.IsPreedit() then c.(pending := Some(next.posted))
                         else c.(posted := c.posted + [next]),
                         accepted + [next])
  {
    LogSnoc(c.posted, next);
    LogSnoc(accepted, next);
    OrderSnoc(accepted, next);
    var kept := next.Act? && next.posted.IsPreedit();
    if Overtakes(accepted) {
      DisagreementStays(Actions(accepted), Actions(c.posted), Actions(accepted + [next]),
                        if kept then Actions(c.posted) else Actions(c.posted + [next]));
    } else if kept {
      assert Actions(c.posted) + Held(None) == Actions(c.posted);
    } else {
      assert Actions(c.posted + [next]) + Held(None) == (Actions(c.posted) + Held(None)) + if next.Act? then [next.posted] else [];
    }
  }

  lemma OvertakingFollows(c: Connection, accepted: seq<Post>, p: PostedAction)
    requires OrderFollows(c, accepted) && c.pending.Some? && !p.IsPreedit()
    ensures OrderFollows(c.(posted := c.posted + [Act(p)]), accepted + [Act(p)])
  {
    LogSnoc(c.posted, Act(p));
    LogSnoc(accepted, Act(p));
    OrderSnoc(accepted, Act(p));
    var a, b := Actions(accepted + [Act(p)]), Actions(c.posted + [Act(p)]);
    if Overtakes(accepted) {
      DisagreementStays(Actions(accepted), Actions(c.posted), a, b);
    } else {
      var i := |Actions(c.posted)|;
      assert a[i].IsPreedit() && b[i] == p;
    }
  }

  lemma DispatchFollows(c: Connection, accepted: seq<Post>, message: EngineMessage)
    requires OrderFollows(c, accepted)
    ensures OrderFollows(Dispatch(c, message).0, accepted + Request(c.session, message))
  {
    var observed := FrontendSession.Observe(c.session, message);
    if observed.Failure? || message.SessionOpened? || message.SessionClosed? {
      assert accepted + [] == accepted;
    } else {
      var next := c.(session := observed.value);
      match message
      case CandidateSnapshot(_, snapshot) =>
        if c.pending.Some? {
          SynchronizeRenders(c.pending.value, snapshot);
          SnapshotFollows(next, accepted, Synchronize(c.pending.value, snapshot), snapshot);
        } else {
          assert c.posted + [] + [Show(snapshot)] == c.posted + [Show(snapshot)];
          PlainFollows(next, accepted, Show(snapshot));
        }
      case ActionRequest(header, action) =>
        var p := ToPosted(header, action);
        if c.pending.None? {
          assert c.posted + [] == c.posted;
          PlainFollows(next, accepted, Act(p));
        } else if p.IsPreedit() {
          PreeditFollows(next, accepted, p);
        } else {
          OvertakingFollows(next, accepted, p);
        }
      case _ =>
    }
  }

  lemma {:induction false} DeliverFollows(c: Connection, accepted: seq<Post>, messages: seq<EngineMessage>)
    requires OrderFollows(c, accepted)
    ensures OrderFollows(Deliver(c, messages), accepted + Requested(c, messages))
    decreases |messages|
  {
    if messages == [] {
      assert accepted + [] == accepted;
    } else {
      var (next, reason) := Dispatch(c, messages[0]);
      var request := Request(c.session, messages[0]);
      DispatchFollows(c, accepted, messages[0]);
      if reason.None? {
        DeliverFollows(next, accepted + request, messages[1..]);
        Regroup(accepted, request, Requested(next, messages[1..]));
      } else {
        Regroup(accepted, request, []);
      }
    }
  }

  /** The order ACROSS kinds is not always kept: a commit or a cancellation is posted at once, past a
      held-back preedit. All accepted actions come out in the order they went in exactly when none was
      accepted while a preedit was being held back. */
  lemma OrderIsKeptUnlessOvertaken(session: FrontendSession.State, messages: seq<EngineMessage>)
    ensures var c := Connection(session, None, []);
            var after := Deliver(c, messages);
            RendersAll(Actions(Requested(c, messages)), Actions(after.posted) + Held(after.pending))
            <==> !Overtakes(Requested(c, messages))
  {
    var c := Connection(session, None, []);
    DeliverFollows(c, [], messages);
    var accepted := Requested(c, messages);
    assert [] + accepted == accepted;
    var after := Deliver(c, messages);
    if Overtakes(accepted) {
      var i :| 0 <= i < |Actions(accepted)| && i < |Actions(after.posted)|
            && Actions(accepted)[i].IsPreedit() != Actions(after.posted)[i].IsPreedit();
      assert (Actions(after.posted) + Held(after.pending))[i] == Actions(after.posted)[i];
    }
  }

  /** The shortest such run: a preedit and then a commit. The commit is posted, and the preedit, accepted
      before it, is still held; if the connection ends here it is never posted. */
  lemma CommitOvertakesPreedit(session: FrontendSession.State, header: Header, preedit: PlatformAction, commit: PlatformAction)
    requires FrontendSession.Observe(session, ActionRequest(header, preedit)).Success?
    requires preedit.kind.SetPreedit? && commit.kind.Commit?
    ensures var c := Connection(session, None, []);
            var messages := [ActionRequest(header, preedit), ActionRequest(header, commit)];
            && Requested(c, messages) == [Act(ToPosted(header, preedit)), Act(ToPosted(header, commit))]
            && Overtakes(Requested(c, messages))
            && Deliver(c, messages).posted == [Act(ToPosted(header, commit))]
            && Deliver(c, messages).pending == Some(ToPosted(header, preedit))
  {
    var c := Connection(session, None, []);
    var first, second := ActionRequest(header, preedit), ActionRequest(header, commit);
    assert [first, second][1..] == [second] && [second][1..] == [];
    var next := Dispatch(c, first).0;
    assert next.posted == [] && next.pending == Some(ToPosted(header, preedit));
    var last := Dispatch(next, second).0;
    assert Deliver(c, [first, second]) == Deliver(next, [second]) == last;
    assert Requested(next, [second]) == [Act(ToPosted(header, commit))];
    OrderSnoc([], Act(ToPosted(header, preedit)));
    OrderSnoc([] + [Act(ToPosted(header, preedit))], Act(ToPosted(header, commit)));
    assert Requested(c, [first, second]) == ([] + [Act(ToPosted(header, preedit))]) + [Act(ToPosted(header, commit))];
  }

  // ---------------------------------------------------------------- the dispatcher

  class Dispatcher {
    const session: FrontendSession.Session
    var pending: Option<PostedAction>
    var posted: seq<Post>

    function Model(): Connection
      reads this, session
    {
      Connection(session.Model(), pending, posted)
    }

    constructor (session: FrontendSession.Session)
      ensures this.session == session && pending == None && posted == []
    {
      this.session := session;
      pending, posted := None, [];
    }

    method DispatchEngineMessage(message: EngineMessage) returns (r: Option<ReconnectReason>)
      modifies this, session
      ensures (Model(), r) == Dispatch(old(Model()), message)
    {
      assert posted + [] == posted;
      var observed := session.ObserveEngine(message);
      match observed {
        case Success(_) =>
        case Failure(StaleEpoch) => return None;
        case Failure(_) => return Some(IdentityError);
      }
      match message {
        case CandidateSnapshot(_, snapshot) =>
          if pending.Some? {
            var held := pending.value;
            pending := None;
            if held.action.kind.SetPreedit? {
              var synchronized := held.action.kind.text;
              var annotation := HighlightedAnnotation(snapshot);
              if annotation.Some? {
                synchronized := ProjectSeparators(held.action.kind.text, annotation.value);
              }
              held := held.(action := held.action.(kind := SetPreedit(synchronized, |synchronized|)));
            }
            posted := posted + [Act(held)];
          }
          posted := posted + [Show(snapshot)];
        case ActionRequest(header, action) =>
          var request := PostedAction(action, CommitToken(header.session, header.epoch, action.id));
          if request.action.kind.SetPreedit? {
            var previous := pending;
            pending := Some(request);
            if previous.Some? {
              posted := posted + [Act(previous.value)];
            }
          } else {
            posted := posted + [Act(request)];
          }
        case _ =>
      }
      r := None;
    }
  }
}
