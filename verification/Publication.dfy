/** When the window, the channel and the I/O thread of an activation are where they should be.

    `ActivateEx` publishes an activation and stores these three a few outside calls later; `Deactivate`
    ends an activation and clears them a few outside calls later. Both may be re-entered in between. A
    log records the four kinds of moment, the latest outermost; the stretches from a publication to its
    storing and from an end to its clearing are nested, since each opens and closes within one call. */
module Publication {
  import opened Wrappers

  datatype Mark = Published(token: nat) | Stored(token: nat) | Ended | Cleared
  {
    predicate Opens() { Published? || Ended? }
  }

  datatype Log = Blank | After(before: Log, last: Mark)

  /** The stretches still open, the innermost last. */
  function Open(log: Log): Log {
    match log
    case Blank => Blank
    case After(before, m) => if m.Opens() then After(Open(before), m) else Unwound(Open(before))
  }

  function Unwound(stack: Log): Log { if stack.Blank? then Blank else stack.before }

  function LastOpening(log: Log): Option<Mark> {
    match log
    case Blank => None
    case After(before, m) => if m.Opens() then Some(m) else LastOpening(before)
  }

  /** The activation an opening or closing mark leaves in place. */
  function Leaves(m: Mark): Option<nat> {
    match m
    case Published(token) => Some(token)
    case Stored(token) => Some(token)
    case _ => None
  }

  /** The activation that is live: the one published last, if none was ended since. */
  function LiveAfter(log: Log): Option<nat> {
    if LastOpening(log).Some? then Leaves(LastOpening(log).value) else None
  }

  /** The activation whose window, channel and I/O thread are stored. */
  function CellsAfter(log: Log): Option<nat> {
    match log
    case Blank => None
    case After(before, m) => if m.Opens() then CellsAfter(before) else Leaves(m)
  }

  function LastToken(log: Log): Option<nat> {
    match log
    case Blank => None
    case After(before, m) => if m.Published? then Some(m.token) else LastToken(before)
  }

  predicate Fits(before: Log, m: Mark) {
    match m
    case Published(token) => LiveAfter(before).None? && (LastToken(before).Some? ==> LastToken(before).value < token)
    case Ended => true
    case Stored(token) => Open(before).After? && Open(before).last == Published(token)
    case Cleared => Open(before).After? && Open(before).last == Ended
  }

  /** Every closing mark closes the innermost stretch, and an activation is published only while none is
      live, with a token later than all before. */
  predicate Proper(log: Log) {
    log.Blank? || (Proper(log.before) && Fits(log.before, log.last))
  }

  // ---------------------------------------------------------------- the last outermost stretch

  /** The opening mark of the outermost stretch that is open or was the last to be. */
  function Bottom(log: Log): Option<Mark> {
    match log
    case Blank => None
    case After(before, m) => if m.Opens() && Open(before).Blank? then Some(m) else Bottom(before)
  }

  /** The marks within that stretch. */
  function Inner(log: Log): Log {
    match log
    case Blank => Blank
    case After(before, m) =>
      if Open(before).Blank? then Blank
      else if !m.Opens() && Open(before).before.Blank? then Inner(before)
      else After(Inner(before), m)
  }

  predicate Includes(log: Log, m: Mark) {
    log.After? && (log.last == m || Includes(log.before, m))
  }

  function Deepest(stack: Log): Option<Mark> {
    match stack
    case Blank => None
    case After(before, m) => if before.Blank? then Some(m) else Deepest(before)
  }

  /** What the outermost stretch and the marks within it decide. */
  ghost predicate Decided(log: Log) {
    && Bottom(log).Some? && Bottom(log).value.Opens()
    && LastOpening(log) == (if LastOpening(Inner(log)).Some? then LastOpening(Inner(log)) else Bottom(log))
    && (Open(log).After? ==> Deepest(Open(log)) == Bottom(log))
    && (Open(log).Blank? ==> CellsAfter(log) == Leaves(Bottom(log).value))
  }

  lemma {:induction false} StretchDecides(log: Log)
    requires Proper(log) && log.After?
    ensures Decided(log)
  {
    if log.before.After? {
      StretchDecides(log.before);
    }
  }

  /** While nothing was ended since its publication, an activation is the last one published; once it was
      ended, any that is live has a later token. */
  ghost predicate Ordered(log: Log) {
    Bottom(log).Some? && Bottom(log).value.Published? ==>
      && (Includes(Inner(log), Ended) <==> LastOpening(Inner(log)).Some?)
      && LastToken(log).Some? && Bottom(log).value.token <= LastToken(log).value
      && (LiveAfter(Inner(log)).Some? ==> LiveAfter(Inner(log)).value > Bottom(log).value.token)
  }

  lemma {:induction false} StretchIsOrdered(log: Log)
    requires Proper(log)
    ensures Ordered(log)
  {
    if log.After? {
      StretchIsOrdered(log.before);
      if log.before.After? {
        StretchDecides(log.before);
      }
    }
  }

  /** The last outermost stretch was disturbed: a deactivation fell between the publication and the
      storing, or an activation completed between the end and the clearing and was live then. */
  predicate Disturbed(log: Log) {
    match Bottom(log)
    case Some(Published(_)) => Includes(Inner(log), Ended)
    case Some(Ended) => LiveAfter(Inner(log)).Some?
    case _ => false
  }

  /** With no call on the stack, window, channel and I/O thread are those of the live activation, and
      absent while none is live, exactly when the last outermost stretch was not disturbed. */
  lemma StoredExactlyWhileLive(log: Log)
    requires Proper(log) && Open(log).Blank?
    ensures CellsAfter(log) == LiveAfter(log) <==> !Disturbed(log)
  {
    if log.After? {
      StretchDecides(log);
      StretchIsOrdered(log);
    }
  }

  /** The last word within a publication was an end, or within an end a publication. */
  predicate Crossed(log: Log) {
    Bottom(log).Some? && LastOpening(Inner(log)).Some? && LastOpening(Inner(log)).value.Ended? != Bottom(log).value.Ended?
  }

  /** Their presence alone agrees with the state exactly when the last outermost stretch was not crossed. */
  lemma PresentExactlyWhileLive(log: Log)
    requires Proper(log) && Open(log).Blank?
    ensures CellsAfter(log).Some? == LiveAfter(log).Some? <==> !Crossed(log)
  {
    if log.After? {
      StretchDecides(log);
      OpeningOpens(Inner(log));
    }
  }

  lemma {:induction false} OpeningOpens(log: Log)
    ensures LastOpening(log).Some? ==> LastOpening(log).value.Opens()
  {
    if log.After? {
      OpeningOpens(log.before);
    }
  }
}
