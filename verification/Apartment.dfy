/** The state a TIP activation owns on its apartment thread: activation tokens, focus tickets and the
    COM resources held. Interfaces are numbered; the two generations are 64-bit and wrap. */
module Apartment {
  import opened Wrappers
  import opened Numbers

  datatype Focus = Focus(document: Option<nat>, identity: Option<nat>, context: Option<nat>)

  const NO_FOCUS: Focus := Focus(None, None, None)

  datatype Resources = Resources(threadMgr: nat, keystrokeMgr: nat, source: nat, cookie: nat, focus: Focus)

  datatype Released = Released(
    clientId: nat, threadMgr: Option<nat>, keystrokeMgr: Option<nat>, source: Option<nat>, cookie: Option<nat>,
    document: Option<nat>, context: Option<nat>)

  datatype State = State(
    activationGeneration: U64, focusGeneration: U64, clientId: nat, inProgress: bool, keyAdmission: bool,
    threadMgr: Option<nat>, keystrokeMgr: Option<nat>, source: Option<nat>, cookie: Option<nat>, focus: Focus)
  {
    predicate IsActivated() { threadMgr.Some? }

    predicate IsLive() { IsActivated() || inProgress }

    predicate CanComplete(token: U64) { inProgress && activationGeneration == token }

    predicate DocumentMatches(identity: Option<nat>) { identity.Some? && focus.identity == identity }

    function ClientId(): Option<nat> { if IsLive() then Some(clientId) else None }
  }

  const FRESH: State := State(0, 0, 0, false, false, None, None, None, None, NO_FOCUS)

  // ---------------------------------------------------------------- activation

  function Begin(s: State, clientId: nat): (Option<U64>, State) {
    if s.IsLive() then (None, s)
    else
      var generation := WrappingInc(s.activationGeneration);
      (Some(generation), s.(activationGeneration := generation, inProgress := true, clientId := clientId))
  }

  function Complete(s: State, token: U64, r: Resources): State {
    if !s.CanComplete(token) then s
    else
      s.(threadMgr := Some(r.threadMgr), keystrokeMgr := Some(r.keystrokeMgr), source := Some(r.source),
         cookie := Some(r.cookie), focus := r.focus, inProgress := false, keyAdmission := true,
         focusGeneration := if r.focus.document.Some? || r.focus.context.Some? then WrappingInc(s.focusGeneration)
                            else s.focusGeneration)
  }

  function Abort(s: State, token: U64): State {
    if !s.CanComplete(token) then s
    else
      s.(activationGeneration := WrappingInc(s.activationGeneration), focus := s.focus.(identity := None),
         clientId := 0, inProgress := false, keyAdmission := false)
  }

  /** Deactivation drops the document and the context but not the document identity. */
  function Deactivate(s: State): (Option<Released>, State) {
    if !s.IsLive() then (None, s.(keyAdmission := false, clientId := 0, inProgress := false))
    else
      (Some(Released(s.clientId, s.threadMgr, s.keystrokeMgr, s.source, s.cookie, s.focus.document, s.focus.context)),
       State(WrappingInc(s.activationGeneration), WrappingInc(s.focusGeneration), 0, false, false,
             None, None, None, None, Focus(None, s.focus.identity, None)))
  }

  // ---------------------------------------------------------------- focus

  function SetFocus(s: State, focus: Focus): (Focus, State) {
    (s.focus, s.(focus := focus, focusGeneration := WrappingInc(s.focusGeneration)))
  }

  /** The focus handed back: the replaced one on success, the offered one on refusal. */
  function SetFocusIfCurrent(s: State, ticket: U64, focus: Focus): (Result<Focus, Focus>, State) {
    if ticket != s.focusGeneration then (Failure(focus), s)
    else (Success(SetFocus(s, focus).0), SetFocus(s, focus).1)
  }

  function ClearIfIdentity(s: State, identity: Option<nat>): (Option<Focus>, State) {
    if s.DocumentMatches(identity) then (Some(SetFocus(s, NO_FOCUS).0), SetFocus(s, NO_FOCUS).1) else (None, s)
  }

  function ClearIfIdentityCurrent(s: State, ticket: U64, identity: Option<nat>): (Option<Option<Focus>>, State) {
    if ticket != s.focusGeneration then (None, s)
    else (Some(ClearIfIdentity(s, identity).0), ClearIfIdentity(s, identity).1)
  }

  function ReplaceContext(s: State, identity: Option<nat>, context: Option<nat>): (Result<Option<nat>, Option<nat>>, State) {
    if !s.DocumentMatches(identity) then (Failure(context), s)
    else
      (Success(s.focus.context),
       s.(focus := s.focus.(context := context), focusGeneration := WrappingInc(s.focusGeneration)))
  }

  function ReplaceContextIfCurrent(s: State, ticket: U64, identity: Option<nat>, context: Option<nat>)
    : (Result<Option<nat>, Option<nat>>, State)
  {
    if ticket != s.focusGeneration then (Failure(context), s) else ReplaceContext(s, identity, context)
  }

  // ---------------------------------------------------------------- runs

  datatype Op =
    | OpBegin(clientId: nat)
    | OpComplete(token: U64, resources: Resources)
    | OpAbort(token: U64)
    | OpDeactivate
    | OpSetFocus(ticket: U64, focus: Focus)
    | OpClear(ticket: U64, clearIdentity: Option<nat>)
    | OpReplaceContext(ticket: U64, contextIdentity: Option<nat>, context: Option<nat>)

  function Apply(s: State, op: Op): State {
    match op
    case OpBegin(clientId) => Begin(s, clientId).1
    case OpComplete(token, resources) => Complete(s, token, resources)
    case OpAbort(token) => Abort(s, token)
    case OpDeactivate => Deactivate(s).1
    case OpSetFocus(ticket, focus) => SetFocusIfCurrent(s, ticket, focus).1
    case OpClear(ticket, identity) => ClearIfIdentityCurrent(s, ticket, identity).1
    case OpReplaceContext(ticket, identity, context) => ReplaceContextIfCurrent(s, ticket, identity, context).1
  }

  function After(ops: seq<Op>): State {
    if ops == [] then FRESH else Apply(After(ops[..|ops| - 1]), ops[|ops| - 1])
  }

  lemma AfterSnoc(ops: seq<Op>, k: nat)
    requires k < |ops|
    ensures After(ops[..k + 1]) == Apply(After(ops[..k]), ops[k])
  {
    assert ops[..k + 1][..k] == ops[..k];
  }

  /** The client id of the last activation that was begun. */
  function LastBegun(ops: seq<Op>): nat {
    if ops == [] then 0
    else
      var before, op := ops[..|ops| - 1], ops[|ops| - 1];
      if op.OpBegin? && !After(before).IsLive() then op.clientId else LastBegun(before)
  }

  predicate Coherent(s: State) {
    && (s.keyAdmission <==> s.threadMgr.Some?)
    && (s.threadMgr.Some? <==> s.keystrokeMgr.Some?)
    && (s.threadMgr.Some? <==> s.source.Some?)
    && (s.threadMgr.Some? <==> s.cookie.Some?)
    && !(s.inProgress && s.threadMgr.Some?)
  }

  /** In every reachable state keys are admitted exactly while all four activation resources are held,
      an activation is never both in progress and complete, and a live client id is that of the last
      activation begun. */
  lemma {:induction false} ReachableIsCoherent(ops: seq<Op>)
    ensures Coherent(After(ops))
    ensures After(ops).ClientId() == if After(ops).IsLive() then Some(LastBegun(ops)) else None
  {
    if ops != [] {
      ReachableIsCoherent(ops[..|ops| - 1]);
    }
  }

  // ---------------------------------------------------------------- tokens

  /** One operation moves each generation by at most one step, and never starts an activation without
      moving the activation generation. */
  lemma ApplyMovesOn(s: State, op: Op)
    requires s.activationGeneration + 1 < U64_MODULUS && s.focusGeneration + 1 < U64_MODULUS
    ensures var t := Apply(s, op);
            && s.activationGeneration <= t.activationGeneration <= s.activationGeneration + 1
            && s.focusGeneration <= t.focusGeneration <= s.focusGeneration + 1
            && (!s.inProgress && t.inProgress ==> t.activationGeneration > s.activationGeneration)
  {
  }

  lemma {:induction false} GenerationsCount(ops: seq<Op>)
    requires |ops| < U64_MODULUS
    ensures After(ops).activationGeneration <= |ops| && After(ops).focusGeneration <= |ops|
  {
    if ops != [] {
      GenerationsCount(ops[..|ops| - 1]);
      ApplyMovesOn(After(ops[..|ops| - 1]), ops[|ops| - 1]);
    }
  }

  lemma {:induction false} GenerationsGrow(ops: seq<Op>, j: nat, k: nat)
    requires j <= k <= |ops| < U64_MODULUS
    ensures After(ops[..j]).activationGeneration <= After(ops[..k]).activationGeneration
    ensures After(ops[..j]).focusGeneration <= After(ops[..k]).focusGeneration
    ensures !After(ops[..j]).inProgress && After(ops[..k]).inProgress ==>
              After(ops[..j]).activationGeneration < After(ops[..k]).activationGeneration
    decreases k - j
  {
    if j < k {
      GenerationsGrow(ops, j, k - 1);
      GenerationsCount(ops[..k - 1]);
      AfterSnoc(ops, k - 1);
      ApplyMovesOn(After(ops[..k - 1]), ops[k - 1]);
    }
  }

  /** Operation number `k` completes the activation it names. */
  predicate CompletesAt(ops: seq<Op>, k: nat)
    requires k < |ops|
  {
    ops[k].OpComplete? && After(ops[..k]).CanComplete(ops[k].token)
  }

  /** Operation number `k` ends an activation, by aborting it or by an effective deactivation. */
  predicate EndsAt(ops: seq<Op>, k: nat)
    requires k < |ops|
  {
    || (ops[k].OpAbort? && After(ops[..k]).CanComplete(ops[k].token))
    || (ops[k].OpDeactivate? && After(ops[..k]).IsLive())
  }

  /** Each token completes at most once. */
  lemma TokenCompletesOnce(ops: seq<Op>, j: nat, k: nat)
    requires j < k < |ops| < U64_MODULUS
    requires CompletesAt(ops, j) && CompletesAt(ops, k)
    ensures ops[j].token != ops[k].token
  {
    AfterSnoc(ops, j);
    GenerationsGrow(ops, j + 1, k);
  }

  /** No token in existence survives an abort or an effective deactivation. */
  lemma NoTokenSurvives(ops: seq<Op>, j: nat, k: nat, token: U64)
    requires j < k <= |ops| < U64_MODULUS
    requires EndsAt(ops, j) && token <= After(ops[..j]).activationGeneration
    ensures !After(ops[..k]).CanComplete(token)
  {
    AfterSnoc(ops, j);
    GenerationsCount(ops[..j]);
    GenerationsGrow(ops, j + 1, k);
  }

  /** An activation can be completed with the token of operation `j` as long as no later operation
      aborts, completes or deactivates it; whatever else happens in between. */
  lemma {:induction false} TokenStaysCurrent(ops: seq<Op>, j: nat, k: nat)
    requires j < k <= |ops| < U64_MODULUS
    requires ops[j].OpBegin? && !After(ops[..j]).IsLive()
    requires forall i :: j < i < k ==> !CompletesAt(ops, i) && !EndsAt(ops, i)
    ensures After(ops[..k]).CanComplete(After(ops[..j + 1]).activationGeneration)
    decreases k
  {
    AfterSnoc(ops, j);
    if j + 1 < k {
      TokenStaysCurrent(ops, j, k - 1);
      AfterSnoc(ops, k - 1);
      assert !CompletesAt(ops, k - 1) && !EndsAt(ops, k - 1);
    }
  }

  /** The resources an activation was completed with are the ones it holds until it is ended, under the client
      id it was begun with; so they are what ending it hands back. */
  lemma {:induction false} ResourcesAreHandedBack(ops: seq<Op>, j: nat, k: nat)
    requires j < k <= |ops| && CompletesAt(ops, j)
    requires forall i :: j < i < k ==> !EndsAt(ops, i)
    ensures var s := After(ops[..k]);
            var r := ops[j].resources;
            && !s.inProgress && s.clientId == After(ops[..j]).clientId
            && Deactivate(s).0 == Some(Released(After(ops[..j]).clientId, Some(r.threadMgr), Some(r.keystrokeMgr), Some(r.source),
                                                Some(r.cookie), s.focus.document, s.focus.context))
    decreases k
  {
    AfterSnoc(ops, k - 1);
    assert ops[..k - 1 + 1] == ops[..k];
    if j + 1 < k {
      ResourcesAreHandedBack(ops, j, k - 1);
      assert !EndsAt(ops, k - 1);
    }
  }

  /** Why fewer than 2^64 steps: `n` rounds of activating and deactivating move the generation by 2n,
      so after 2^63 rounds a token from before them would be honoured again. */
  function Rounds(s: State, n: nat): State {
    if n == 0 then s else Deactivate(Begin(Rounds(s, n - 1), 1).1).1
  }

  lemma {:induction false} RoundsWrap(s: State, n: nat)
    requires !s.IsLive()
    ensures !Rounds(s, n).IsLive()
    ensures Rounds(s, n).activationGeneration == (s.activationGeneration + 2 * n) % U64_MODULUS
  {
    if n > 0 {
      RoundsWrap(s, n - 1);
      var g := s.activationGeneration + 2 * (n - 1);
      assert s.activationGeneration + 2 * n == g + 2;
      WrapsTwice(g);
    }
  }

  lemma WrapsTwice(g: nat)
    ensures WrappingInc(WrappingInc(g % U64_MODULUS)) == (g + 2) % U64_MODULUS
  {
    var q := g / U64_MODULUS;
    var r := g % U64_MODULUS;
    assert g + 2 == q * U64_MODULUS + (r + 2);
    if r + 2 >= U64_MODULUS {
      assert g + 2 == (q + 1) * U64_MODULUS + (r + 2 - U64_MODULUS);
    }
  }

  lemma WrapRevivesToken(s: State, clientId: nat)
    requires !s.IsLive()
    ensures var (token, _) := Begin(s, clientId);
            token.Some? && Begin(Rounds(s, U64_MODULUS / 2), clientId).1.CanComplete(token.value)
  {
    RoundsReturn(s);
  }

  lemma RoundsReturn(s: State)
    requires !s.IsLive()
    ensures var t := Rounds(s, U64_MODULUS / 2); !t.IsLive() && t.activationGeneration == s.activationGeneration
  {
    RoundsWrap(s, U64_MODULUS / 2);
    WholeTurn(s.activationGeneration);
  }

  lemma WholeTurn(g: U64)
    ensures (g + 2 * (U64_MODULUS / 2)) % U64_MODULUS == g
  {
  }

  // ---------------------------------------------------------------- tickets

  /** An operation that makes the tickets taken before it stale. */
  predicate Announces(s: State, op: Op) {
    match op
    case OpComplete(token, r) => s.CanComplete(token) && (r.focus.document.Some? || r.focus.context.Some?)
    case OpDeactivate => s.IsLive()
    case OpSetFocus(ticket, _) => ticket == s.focusGeneration
    case OpClear(ticket, identity) => ticket == s.focusGeneration && s.DocumentMatches(identity)
    case OpReplaceContext(ticket, identity, _) => ticket == s.focusGeneration && s.DocumentMatches(identity)
    case _ => false
  }

  /** An operation that changes the focus and leaves them current: a completion over another focus with neither
      a document nor a context, or an abort that drops an identity. */
  predicate Silences(s: State, op: Op) {
    match op
    case OpComplete(token, r) => s.CanComplete(token) && r.focus.document.None? && r.focus.context.None? && r.focus != s.focus
    case OpAbort(token) => s.CanComplete(token) && s.focus.identity.Some?
    case _ => false
  }

  /** An operation that makes them stale and leaves the focus as it is. */
  predicate Repeats(s: State, op: Op) {
    && Announces(s, op)
    && match op
       case OpComplete(_, r) => r.focus == s.focus
       case OpDeactivate => s.focus.document.None? && s.focus.context.None?
       case OpSetFocus(_, focus) => focus == s.focus
       case OpClear(_, _) => false
       case OpReplaceContext(_, _, context) => context == s.focus.context
       case _ => false
  }

  lemma StepOfTickets(s: State, op: Op)
    ensures Apply(s, op).focusGeneration != s.focusGeneration <==> Announces(s, op)
    ensures Apply(s, op).focus != s.focus && Apply(s, op).focusGeneration == s.focusGeneration <==> Silences(s, op)
    ensures Apply(s, op).focus == s.focus && Apply(s, op).focusGeneration != s.focusGeneration <==> Repeats(s, op)
  {
  }

  /** Operation number `k` changes the focus. */
  predicate ChangesFocusAt(ops: seq<Op>, k: nat)
    requires k < |ops|
  {
    After(ops[..k + 1]).focus != After(ops[..k]).focus
  }

  predicate AnnouncesAt(ops: seq<Op>, k: nat)
    requires k < |ops|
  {
    Announces(After(ops[..k]), ops[k])
  }

  predicate SilencesAt(ops: seq<Op>, k: nat)
    requires k < |ops|
  {
    Silences(After(ops[..k]), ops[k])
  }

  predicate RepeatsAt(ops: seq<Op>, k: nat)
    requires k < |ops|
  {
    Repeats(After(ops[..k]), ops[k])
  }

  /** The ticket of moment `j` is still current at moment `k`. */
  predicate Current(ops: seq<Op>, j: nat, k: nat)
    requires j <= |ops| && k <= |ops|
  {
    After(ops[..j]).focusGeneration == After(ops[..k]).focusGeneration
  }

  /** A ticket is current exactly as long as no operation announced a change. */
  lemma {:induction false} CurrentExactlyUnlessAnnounced(ops: seq<Op>, j: nat, k: nat)
    requires j <= k <= |ops| < U64_MODULUS
    ensures Current(ops, j, k) <==> forall i :: j <= i < k ==> !AnnouncesAt(ops, i)
    decreases k - j
  {
    if j < k {
      CurrentExactlyUnlessAnnounced(ops, j, k - 1);
      GenerationsGrow(ops, j, k - 1);
      GenerationsGrow(ops, k - 1, k);
      AfterSnoc(ops, k - 1);
      assert ops[..k - 1 + 1] == ops[..k];
      StepOfTickets(After(ops[..k - 1]), ops[k - 1]);
      assert Current(ops, k - 1, k) <==> !AnnouncesAt(ops, k - 1);
    }
  }

  lemma ChangeIsAnnouncedOrSilent(ops: seq<Op>, i: nat)
    requires i < |ops|
    ensures ChangesFocusAt(ops, i) <==> SilencesAt(ops, i) || (AnnouncesAt(ops, i) && !RepeatsAt(ops, i))
  {
    AfterSnoc(ops, i);
    StepOfTickets(After(ops[..i]), ops[i]);
  }

  /** A ticket is still honoured although the focus changed since it was taken exactly when some change was
      silent and none was announced. */
  lemma TicketCurrentIffUnchanged(ops: seq<Op>, j: nat, k: nat)
    requires j <= k <= |ops| < U64_MODULUS
    ensures (Current(ops, j, k) && exists i :: j <= i < k && ChangesFocusAt(ops, i))
       <==> (exists i :: j <= i < k && SilencesAt(ops, i)) && forall i :: j <= i < k ==> !AnnouncesAt(ops, i)
  {
    CurrentExactlyUnlessAnnounced(ops, j, k);
    if Current(ops, j, k) {
      if i :| j <= i < k && ChangesFocusAt(ops, i) {
        ChangeIsAnnouncedOrSilent(ops, i);
        assert !AnnouncesAt(ops, i) && SilencesAt(ops, i);
      }
      if i :| j <= i < k && SilencesAt(ops, i) {
        ChangeIsAnnouncedOrSilent(ops, i);
        assert ChangesFocusAt(ops, i);
      }
    }
  }

  /** And it is refused although the focus never changed exactly when something was announced, and all of that
      repeated the focus there was. */
  lemma TicketRefusedThoughUnchanged(ops: seq<Op>, j: nat, k: nat)
    requires j <= k <= |ops| < U64_MODULUS
    ensures (!Current(ops, j, k) && forall i :: j <= i < k ==> !ChangesFocusAt(ops, i))
       <==> (exists i :: j <= i < k && AnnouncesAt(ops, i))
            && forall i :: j <= i < k ==> !SilencesAt(ops, i) && (AnnouncesAt(ops, i) ==> RepeatsAt(ops, i))
  {
    CurrentExactlyUnlessAnnounced(ops, j, k);
    forall i | j <= i < k
      ensures ChangesFocusAt(ops, i) <==> SilencesAt(ops, i) || (AnnouncesAt(ops, i) && !RepeatsAt(ops, i))
    {
      ChangeIsAnnouncedOrSilent(ops, i);
    }
    if forall i :: j <= i < k ==> !ChangesFocusAt(ops, i) {
      forall i | j <= i < k
        ensures !SilencesAt(ops, i) && (AnnouncesAt(ops, i) ==> RepeatsAt(ops, i))
      {
        assert !ChangesFocusAt(ops, i);
      }
    } else if exists i :: j <= i < k && ChangesFocusAt(ops, i) {
      var i :| j <= i < k && ChangesFocusAt(ops, i);
      assert SilencesAt(ops, i) || (AnnouncesAt(ops, i) && !RepeatsAt(ops, i));
    }
  }

  /** A ticketed operation. */
  predicate NeedsTicket(op: Op) {
    op.OpSetFocus? || op.OpClear? || op.OpReplaceContext?
  }

  /** An update whose ticket was taken before operation `j` takes effect at operation `k` only if nothing was
      announced in between; a focus offered then is installed exactly in that case. If nothing was changed
      silently either, what it replaces is the focus its ticket was taken for. */
  lemma TicketedUpdate(ops: seq<Op>, j: nat, k: nat)
    requires j <= k < |ops| < U64_MODULUS
    requires NeedsTicket(ops[k]) && ops[k].ticket == After(ops[..j]).focusGeneration
    ensures var quiet := forall i :: j <= i < k ==> !AnnouncesAt(ops, i);
            && (After(ops[..k + 1]) != After(ops[..k]) ==> quiet)
            && (ops[k].OpSetFocus? ==>
                  if quiet then After(ops[..k + 1]).focus == ops[k].focus && AnnouncesAt(ops, k)
                  else After(ops[..k + 1]) == After(ops[..k]))
    ensures (forall i :: j <= i < k ==> !AnnouncesAt(ops, i) && !SilencesAt(ops, i)) ==> After(ops[..k]).focus == After(ops[..j]).focus
  {
    CurrentExactlyUnlessAnnounced(ops, j, k);
    AfterSnoc(ops, k);
    if forall i :: j <= i < k ==> !AnnouncesAt(ops, i) && !SilencesAt(ops, i) {
      UnchangedWithoutChanges(ops, j, k);
    }
  }

  lemma {:induction false} UnchangedWithoutChanges(ops: seq<Op>, j: nat, k: nat)
    requires j <= k <= |ops|
    requires forall i :: j <= i < k ==> !AnnouncesAt(ops, i) && !SilencesAt(ops, i)
    ensures After(ops[..k]).focus == After(ops[..j]).focus
    decreases k - j
  {
    if j < k {
      UnchangedWithoutChanges(ops, j, k - 1);
      assert !AnnouncesAt(ops, k - 1) && !SilencesAt(ops, k - 1);
      ChangeIsAnnouncedOrSilent(ops, k - 1);
      assert ops[..k - 1 + 1] == ops[..k];
    }
  }

  /** Of several updates started together, with the same ticket, at most one changes the focus. */
  lemma OneUpdateWins(ops: seq<Op>, j: nat, k: nat)
    requires j < k < |ops| < U64_MODULUS
    requires NeedsTicket(ops[j]) && NeedsTicket(ops[k]) && ops[j].ticket == ops[k].ticket
    requires ChangesFocusAt(ops, j)
    ensures !ChangesFocusAt(ops, k) && After(ops[..k + 1]) == After(ops[..k])
  {
    AfterSnoc(ops, j);
    AfterSnoc(ops, k);
    StepOfTickets(After(ops[..j]), ops[j]);
    GenerationsGrow(ops, j, j + 1);
    GenerationsGrow(ops, j + 1, k);
  }

  /** For instance: a focus is set, an activation begins, and an update takes its ticket; the activation completes
      without a focus, and the update, older than that, is installed all the same. */
  lemma StaleTicketIsHonoured(a: Focus, b: Focus, client: nat, r: Resources)
    requires a != NO_FOCUS && r.focus == NO_FOCUS
    ensures var ops := [OpSetFocus(0, a), OpBegin(client), OpComplete(1, r), OpSetFocus(1, b)];
            && Current(ops, 2, 3) && ChangesFocusAt(ops, 2)
            && After(ops[..2]).focus == a && After(ops[..3]).focus == NO_FOCUS && After(ops).focus == b
  {
    var ops := [OpSetFocus(0, a), OpBegin(client), OpComplete(1, r), OpSetFocus(1, b)];
    AfterSnoc(ops, 0);
    AfterSnoc(ops, 1);
    AfterSnoc(ops, 2);
    AfterSnoc(ops, 3);
    assert ops[..0] == [] && ops[..4] == ops;
  }

  // ---------------------------------------------------------------- conservation of references

  function Bag(item: Option<nat>): multiset<nat> {
    if item.Some? then multiset{item.value} else multiset{}
  }

  /** Documents and contexts, each counted. */
  function DocumentsOf(f: Focus): multiset<nat> { Bag(f.document) }
  function ContextsOf(f: Focus): multiset<nat> { Bag(f.context) }

  function Returned(r: Result<Focus, Focus>): Focus {
    match r case Success(f) => f case Failure(f) => f
  }

  /** Whatever a focus update decides, the references held and offered before it are those held and
      handed back after it. */
  lemma SetFocusConserves(s: State, ticket: U64, focus: Focus)
    ensures var (r, t) := SetFocusIfCurrent(s, ticket, focus);
            && DocumentsOf(s.focus) + DocumentsOf(focus) == DocumentsOf(t.focus) + DocumentsOf(Returned(r))
            && ContextsOf(s.focus) + ContextsOf(focus) == ContextsOf(t.focus) + ContextsOf(Returned(r))
  {
    if ticket != s.focusGeneration {
      assert SetFocusIfCurrent(s, ticket, focus) == (Failure(focus), s);
    } else {
      assert SetFocusIfCurrent(s, ticket, focus).0 == Success(s.focus);
      assert SetFocusIfCurrent(s, ticket, focus).1.focus == focus;
    }
  }

  lemma ClearConserves(s: State, ticket: U64, identity: Option<nat>)
    ensures var (r, t) := ClearIfIdentityCurrent(s, ticket, identity);
            var back := if r.Some? && r.value.Some? then r.value.value else NO_FOCUS;
            (s.focus == t.focus && back == NO_FOCUS) || (s.focus == back && t.focus == NO_FOCUS)
    ensures var (r, t) := ClearIfIdentityCurrent(s, ticket, identity);
            t.focus != s.focus ==> r.Some? && s.focus.identity == identity && identity.Some?
  {
  }

  lemma ReplaceContextConserves(s: State, ticket: U64, identity: Option<nat>, context: Option<nat>)
    ensures var (r, t) := ReplaceContextIfCurrent(s, ticket, identity, context);
            var back := if r.Success? then r.value else r.error;
            && DocumentsOf(s.focus) == DocumentsOf(t.focus)
            && ContextsOf(s.focus) + Bag(context) == ContextsOf(t.focus) + Bag(back)
  {
    if ticket == s.focusGeneration && s.DocumentMatches(identity) {
      assert ReplaceContextIfCurrent(s, ticket, identity, context).1.focus == s.focus.(context := context);
    } else {
      assert ReplaceContextIfCurrent(s, ticket, identity, context) == (Failure(context), s);
    }
  }

  lemma DeactivateConserves(s: State)
    ensures var (r, t) := Deactivate(s);
            && DocumentsOf(s.focus) == DocumentsOf(t.focus) + (if r.Some? then Bag(r.value.document) else multiset{})
            && ContextsOf(s.focus) == ContextsOf(t.focus) + (if r.Some? then Bag(r.value.context) else multiset{})
  {
  }

  // ---------------------------------------------------------------- conservation over runs

  datatype Reference = Document(item: nat) | Context(item: nat)

  /** How often a document and a context, where there are any, are the reference `x`. */
  function Counted(document: Option<nat>, context: Option<nat>, x: Reference): nat {
    if (match x case Document(item) => document case Context(item) => context) == Some(x.item) then 1 else 0
  }

  /** How often an operation is given `x`, hands it back, and, when a completion finds a focus set, lets it go. */
  function Given(op: Op, x: Reference): nat {
    match op
    case OpComplete(_, resources) => Counted(resources.focus.document, resources.focus.context, x)
    case OpSetFocus(_, focus) => Counted(focus.document, focus.context, x)
    case OpReplaceContext(_, _, context) => Counted(None, context, x)
    case _ => 0
  }

  function HandedBack(s: State, op: Op, x: Reference): nat {
    match op
    case OpComplete(token, resources) =>
      if s.CanComplete(token) then 0 else Counted(resources.focus.document, resources.focus.context, x)
    case OpSetFocus(ticket, focus) =>
      var back := Returned(SetFocusIfCurrent(s, ticket, focus).0);
      Counted(back.document, back.context, x)
    case OpClear(ticket, identity) =>
      var r := ClearIfIdentityCurrent(s, ticket, identity).0;
      if r.Some? && r.value.Some? then Counted(r.value.value.document, r.value.value.context, x) else 0
    case OpReplaceContext(ticket, identity, context) =>
      (match ReplaceContextIfCurrent(s, ticket, identity, context).0
       case Success(previous) => Counted(None, previous, x)
       case Failure(offered) => Counted(None, offered, x))
    case OpDeactivate =>
      var r := Deactivate(s).0;
      if r.Some? then Counted(r.value.document, r.value.context, x) else 0
    case _ => 0
  }

  function LetGo(s: State, op: Op, x: Reference): nat {
    if op.OpComplete? && s.CanComplete(op.token) then Counted(s.focus.document, s.focus.context, x) else 0
  }

  lemma OperationConserves(s: State, op: Op, x: Reference)
    ensures Counted(s.focus.document, s.focus.context, x) + Given(op, x)
         == Counted(Apply(s, op).focus.document, Apply(s, op).focus.context, x) + HandedBack(s, op, x) + LetGo(s, op, x)
  {
  }

  function GivenAll(ops: seq<Op>, x: Reference): nat {
    if ops == [] then 0 else GivenAll(ops[..|ops| - 1], x) + Given(ops[|ops| - 1], x)
  }

  function HandedBackAll(ops: seq<Op>, x: Reference): nat {
    if ops == [] then 0 else HandedBackAll(ops[..|ops| - 1], x) + HandedBack(After(ops[..|ops| - 1]), ops[|ops| - 1], x)
  }

  function LetGoAll(ops: seq<Op>, x: Reference): nat {
    if ops == [] then 0 else LetGoAll(ops[..|ops| - 1], x) + LetGo(After(ops[..|ops| - 1]), ops[|ops| - 1], x)
  }

  /** Over every run, each document and each context is held or was handed back as often as the state was
      given it, or was let go of by a completion that found a focus already set. */
  lemma {:induction false} RunConserves(ops: seq<Op>, x: Reference)
    ensures GivenAll(ops, x)
         == Counted(After(ops).focus.document, After(ops).focus.context, x) + HandedBackAll(ops, x) + LetGoAll(ops, x)
  {
    if ops != [] {
      var before, op := ops[..|ops| - 1], ops[|ops| - 1];
      RunConserves(before, x);
      OperationConserves(After(before), op, x);
    }
  }

  /** The identity of the last document outlives a deactivation: a context pushed for it afterwards is
      installed although no document is held, and a context pushed for anything else is not. */
  lemma IdentityOutlivesDeactivation(s: State, identity: Option<nat>, context: nat)
    requires s.IsLive()
    ensures var t := Deactivate(s).1;
            var (r, u) := ReplaceContextIfCurrent(t, t.focusGeneration, identity, Some(context));
            && !u.IsLive() && u.focus.document == None
            && (u.focus.context == Some(context) <==> identity.Some? && identity == s.focus.identity)
  {
  }

  // ---------------------------------------------------------------- the object

  class ApartmentState {
    var activationGeneration: U64
    var focusGeneration: U64
    var clientId: nat
    var inProgress: bool
    var keyAdmission: bool
    var threadMgr: Option<nat>
    var keystrokeMgr: Option<nat>
    var source: Option<nat>
    var cookie: Option<nat>
    var document: Option<nat>
    var identity: Option<nat>
    var context: Option<nat>

    function Model(): State
      reads this
    {
      State(activationGeneration, focusGeneration, clientId, inProgress, keyAdmission,
            threadMgr, keystrokeMgr, source, cookie, Focus(document, identity, context))
    }

    /** The invariant of the object: its state is coherent. */
    predicate Consistent()
      reads `keyAdmission, `threadMgr, `keystrokeMgr, `source, `cookie, `inProgress
    {
      && keyAdmission == threadMgr.Some?
      && keystrokeMgr.Some? == threadMgr.Some?
      && source.Some? == threadMgr.Some?
      && cookie.Some? == threadMgr.Some?
      && !(inProgress && threadMgr.Some?)
    }

    constructor ()
      ensures Consistent() && Model() == FRESH
    {
      activationGeneration, focusGeneration, clientId := 0, 0, 0;
      inProgress, keyAdmission := false, false;
      threadMgr, keystrokeMgr, source, cookie := None, None, None, None;
      document, identity, context := None, None, None;
    }

    method BeginActivation(id: nat) returns (token: Option<U64>)
      requires Consistent()
      modifies this
      ensures Consistent()
      ensures token == Begin(old(Model()), id).0
      ensures Model() == Begin(old(Model()), id).1
    {
      if threadMgr.Some? || inProgress {
        return None;
      }
      activationGeneration := WrappingInc(activationGeneration);
      inProgress := true;
      clientId := id;
      token := Some(activationGeneration);
    }

    method CompleteActivation(token: U64, resources: Resources) returns (accepted: bool)
      requires Consistent()
      modifies this
      ensures Consistent()
      ensures accepted == old(Model()).CanComplete(token)
      ensures Model() == Complete(old(Model()), token, resources)
    {
      if !(inProgress && activationGeneration == token) {
        return false;
      }
      threadMgr := Some(resources.threadMgr);
      keystrokeMgr := Some(resources.keystrokeMgr);
      source := Some(resources.source);
      cookie := Some(resources.cookie);
      document, identity, context := resources.focus.document, resources.focus.identity, resources.focus.context;
      inProgress := false;
      keyAdmission := true;
      if document.Some? || context.Some? {
        focusGeneration := WrappingInc(focusGeneration);
      }
      accepted := true;
    }

    method AbortActivation(token: U64)
      requires Consistent()
      modifies this
      ensures Consistent()
      ensures Model() == Abort(old(Model()), token)
    {
      if !(inProgress && activationGeneration == token) {
        return;
      }
      activationGeneration := WrappingInc(activationGeneration);
      identity := None;
      clientId := 0;
      inProgress := false;
      keyAdmission := false;
    }

    method BeginDeactivation() returns (released: Option<Released>)
      requires Consistent()
      modifies this
      ensures Consistent()
      ensures released == Deactivate(old(Model())).0
      ensures Model() == Deactivate(old(Model())).1
    {
      keyAdmission := false;
      var wasActive := threadMgr.Some? || inProgress;
      released := None;
      if wasActive {
        released := Some(Released(clientId, threadMgr, keystrokeMgr, source, cookie, document, context));
        threadMgr, keystrokeMgr, source, cookie := None, None, None, None;
        document, context := None, None;
        activationGeneration := WrappingInc(activationGeneration);
      }
      clientId := 0;
      inProgress := false;
      if wasActive {
        focusGeneration := WrappingInc(focusGeneration);
      }
    }

    method ReplaceFocus(focus: Focus) returns (previous: Focus)
      modifies `document, `identity, `context, `focusGeneration
      ensures previous == SetFocus(old(Model()), focus).0
      ensures Model() == SetFocus(old(Model()), focus).1
    {
      previous := Focus(document, identity, context);
      document, identity, context := focus.document, focus.identity, focus.context;
      focusGeneration := WrappingInc(focusGeneration);
    }

    method ReplaceFocusIfCurrent(ticket: U64, focus: Focus) returns (r: Result<Focus, Focus>)
      modifies `document, `identity, `context, `focusGeneration
      ensures r == SetFocusIfCurrent(old(Model()), ticket, focus).0
      ensures Model() == SetFocusIfCurrent(old(Model()), ticket, focus).1
    {
      if ticket != focusGeneration {
        return Failure(focus);
      }
      var previous := ReplaceFocus(focus);
      r := Success(previous);
    }

    method ClearFocusIfCurrent(ticket: U64, wanted: Option<nat>) returns (r: Option<Option<Focus>>)
      modifies `document, `identity, `context, `focusGeneration
      ensures r == ClearIfIdentityCurrent(old(Model()), ticket, wanted).0
      ensures Model() == ClearIfIdentityCurrent(old(Model()), ticket, wanted).1
    {
      if ticket != focusGeneration {
        return None;
      }
      if !(wanted.Some? && identity == wanted) {
        return Some(None);
      }
      var previous := ReplaceFocus(NO_FOCUS);
      r := Some(Some(previous));
    }

    method ReplaceFocusedContextIfCurrent(ticket: U64, wanted: Option<nat>, offered: Option<nat>)
      returns (r: Result<Option<nat>, Option<nat>>)
      modifies `document, `identity, `context, `focusGeneration
      ensures r == ReplaceContextIfCurrent(old(Model()), ticket, wanted, offered).0
      ensures Model() == ReplaceContextIfCurrent(old(Model()), ticket, wanted, offered).1
    {
      if ticket != focusGeneration {
        return Failure(offered);
      }
      if !(wanted.Some? && identity == wanted) {
        return Failure(offered);
      }
      focusGeneration := WrappingInc(focusGeneration);
      r := Success(context);
      context := offered;
    }
  }
}
