/** Applying engine actions to a document inside edit sessions: `Commit`, `SetPreedit` and
    `CancelComposition`, with every call into the host allowed to fail.

    Texts are sequences of UTF-16 code units. The host keeps a text, a selection and the ranges of its
    open compositions; an edit carries every other range along (an anchor at or before the start of
    the edited range stays, one at or behind its end moves with it). */
module EditSession {
  import opened Wrappers
  import Protocol

  // ---------------------------------------------------------------- the host document

  datatype Range = Range(start: nat, end: nat)

  function Caret(at: nat): Range { Range(at, at) }

  ghost predicate Within(r: Range, text: string) { r.start <= r.end <= |text| }

  datatype Host = Host(text: string, selection: Range, open: map<nat, Range>, next: nat) {
    ghost predicate Valid() {
      && Within(selection, text)
      && (forall id :: id in open ==> id < next && Within(open[id], text))
    }
  }

  function Replaced(text: string, r: Range, t: string): string
    requires r.start <= r.end <= |text|
  {
    text[..r.start] + t + text[r.end..]
  }

  function MovedAnchor(p: nat, r: Range, n: nat): nat
    requires r.start <= r.end
  {
    if p <= r.start then p else if p < r.end then r.start else p - (r.end - r.start) + n
  }

  function Moved(other: Range, r: Range, n: nat): Range
    requires r.start <= r.end
  {
    Range(MovedAnchor(other.start, r, n), MovedAnchor(other.end, r, n))
  }

  function SetText(h: Host, r: Range, t: string): (out: Host)
    requires h.Valid() && Within(r, h.text)
    ensures out.Valid() && out.open.Keys == h.open.Keys
  {
    Host(Replaced(h.text, r, t), Moved(h.selection, r, |t|), map id | id in h.open :: Moved(h.open[id], r, |t|), h.next)
  }

  function Select(h: Host, r: Range): Host { h.(selection := r) }

  function Open(h: Host, r: Range): (out: Host)
    requires h.Valid() && Within(r, h.text)
    ensures out.Valid()
  {
    h.(open := h.open[h.next := r], next := h.next + 1)
  }

  function Close(h: Host, id: nat): Host { h.(open := h.open - {id}) }

  // ---------------------------------------------------------------- sessions under failing calls

  /** The calls into the host that may fail, by call site. */
  datatype Call =
    | GetRange | SetRangeText | CloneCaret | CollapseCaret | SetSelection
    | CloneAnchor | CollapseAnchor | EndComposition
    | GetInserter | InsertText | GetCompositionContext | StartComposition | ClearInserted
    | RangeAfterStart | EndAfterStart
    | GetSelection | SetSelectedText | CollapseSelected | MoveSelection | CloneSelected

  type Faults = set<Call>

  /** The host together with the composition slot. */
  datatype Session = Session(host: Host, slot: Option<nat>) {
    /** The slot never dangles. */
    ghost predicate Valid() {
      host.Valid() && (slot.Some? ==> slot.value in host.open)
    }

    /** The slot holds a composition exactly when the host does, and it is not empty. */
    ghost predicate Tracked() {
      && Valid()
      && host.open.Keys == (if slot.Some? then {slot.value} else {})
      && (slot.Some? ==> host.open[slot.value].start < host.open[slot.value].end)
    }
  }

  predicate CaretFails(faults: Faults) {
    CloneCaret in faults || CollapseCaret in faults || SetSelection in faults
  }

  predicate FinishFails(faults: Faults) {
    CloneAnchor in faults || CollapseAnchor in faults || EndComposition in faults
  }

  predicate RangeEditFails(faults: Faults) {
    GetRange in faults || SetRangeText in faults
  }

  /** Erase the tracked composition and end it; the slot is emptied whatever fails. */
  function Erased(s: Session, faults: Faults): (r: (Session, bool))
    requires s.Valid()
    ensures r.0.Valid() && r.0.slot == None
  {
    if s.slot.None? then (s, true)
    else if RangeEditFails(faults) then (Session(s.host, None), false)
    else
      var cleared := SetText(s.host, s.host.open[s.slot.value], []);
      if EndComposition in faults then (Session(cleared, None), false)
      else (Session(Close(cleared, s.slot.value), None), true)
  }

  function CommittedActive(s: Session, text: string, faults: Faults): (r: (Session, bool))
    requires s.Valid()
    ensures r.0.Valid() && r.0.slot == None
  {
    if s.slot.None? then (s, false)
    else if RangeEditFails(faults) then (Session(s.host, None), false)
    else
      var range := s.host.open[s.slot.value];
      var written := SetText(s.host, range, text);
      if CaretFails(faults) then (Session(written, None), false)
      else
        var selected := Select(written, Caret(range.start + |text|));
        if FinishFails(faults) then (Session(selected, None), false)
        else (Session(Close(selected, s.slot.value), None), true)
  }

  function CommittedAtSelection(h: Host, text: string, faults: Faults): (r: (Host, bool))
    requires h.Valid()
    ensures r.0.Valid()
  {
    if GetSelection in faults || SetSelectedText in faults then (h, false)
    else
      var written := SetText(h, h.selection, text);
      if CollapseSelected in faults then (written, false)
      else
        (if MoveSelection in faults then written else Select(written, Caret(h.selection.start + |text|)),
         CloneSelected !in faults)
  }

  /** The composition range if there is one, the selection if that did not work out. */
  function Committed(s: Session, text: string, faults: Faults): (r: (Session, bool))
    requires s.Valid()
    ensures r.0.Valid() && r.0.slot == None
  {
    var active := CommittedActive(s, text, faults);
    if active.1 then active
    else
      var fallen := CommittedAtSelection(active.0.host, text, faults);
      (Session(fallen.0, None), fallen.1)
  }

  function Written(s: Session, range: Range, text: string, faults: Faults): (r: (Session, bool))
    requires s.Valid() && Within(range, s.host.text)
    ensures r.0.Valid() && r.0.slot == s.slot
  {
    if SetRangeText in faults then (s, false)
    else
      var written := SetText(s.host, range, text);
      if CaretFails(faults) then (Session(written, s.slot), false)
      else (Session(Select(written, Caret(range.start + |text|)), s.slot), true)
  }

  function Preedited(s: Session, text: string, faults: Faults): (r: (Session, bool))
    requires s.Valid()
    ensures r.0.Valid()
  {
    if text == [] then Erased(s, faults)
    else if s.slot.Some? then
      if GetRange in faults then (s, false) else Written(s, s.host.open[s.slot.value], text, faults)
    else if GetInserter in faults || InsertText in faults then (s, false)
    else
      var inserted := SetText(s.host, s.host.selection, text);
      var range := Range(s.host.selection.start, s.host.selection.start + |text|);
      if GetCompositionContext in faults || StartComposition in faults then
        (Session(if ClearInserted in faults then inserted else SetText(inserted, range, []), None), false)
      else
        var started := Open(inserted, range);
        if RangeAfterStart in faults then
          (Session(if EndAfterStart in faults then started else Close(started, inserted.next), None), false)
        else Written(Session(started, Some(inserted.next)), range, text, faults)
  }

  datatype Event =
    | SetPreedit(text: string)
    | Commit(text: string)
    | CancelComposition
    | MoveSelectionTo(range: Range)
    | HostTerminates

  /** One event, with the calls that fail during it. The host may also move the selection and end the
      composition on its own; it then reports the end, and the slot is emptied. */
  function Step(s: Session, event: Event, faults: Faults): (r: (Session, bool))
    requires s.Valid()
    ensures r.0.Valid()
  {
    match event
    case SetPreedit(text) => Preedited(s, text, faults)
    case Commit(text) => Committed(s, text, faults)
    case CancelComposition => Erased(s, faults)
    case MoveSelectionTo(range) =>
      (if range.start <= range.end <= |s.host.text| then s.(host := Select(s.host, range)) else s, true)
    case HostTerminates =>
      (if s.slot.Some? then Session(Close(s.host, s.slot.value), None) else s, true)
  }

  function Run(s: Session, events: seq<Event>): (r: Session)
    requires s.Valid()
    ensures r.Valid()
    decreases |events|
  {
    if events == [] then s else Run(Step(s, events[0], {}).0, events[1..])
  }

  // ---------------------------------------------------------------- the reference editor

  /** What a user sees: a text with a selection, and while composing, the preedit between what stands
      before and after it. */
  datatype Editor =
    | Idle(text: string, selection: Range)
    | Composing(before: string, preedit: string, after: string, selection: Range)

  ghost function View(s: Session): Editor
    requires s.Valid()
  {
    if s.slot.None? then Idle(s.host.text, s.host.selection)
    else
      var r := s.host.open[s.slot.value];
      Composing(s.host.text[..r.start], s.host.text[r.start..r.end], s.host.text[r.end..], s.host.selection)
  }

  ghost predicate Sound(e: Editor) {
    match e
    case Idle(text, selection) => Within(selection, text)
    case Composing(before, preedit, after, selection) => preedit != [] && Within(selection, before + preedit + after)
  }

  ghost function Edited(e: Editor, event: Event): Editor
    requires Sound(e)
  {
    match e
    case Idle(text, selection) =>
      (match event
       case SetPreedit(t) =>
         if t == [] then e
         else Composing(text[..selection.start], t, text[selection.end..], Caret(selection.start + |t|))
       case Commit(t) => Idle(Replaced(text, selection, t), Caret(selection.start + |t|))
       case CancelComposition => e
       case MoveSelectionTo(range) => if Within(range, text) then Idle(text, range) else e
       case HostTerminates => e)
    case Composing(before, preedit, after, selection) =>
      (match event
       case SetPreedit(t) =>
         if t == [] then Idle(before + after, Moved(selection, Range(|before|, |before| + |preedit|), 0))
         else Composing(before, t, after, Caret(|before| + |t|))
       case Commit(t) => Idle(before + t + after, Caret(|before| + |t|))
       case CancelComposition => Idle(before + after, Moved(selection, Range(|before|, |before| + |preedit|), 0))
       case MoveSelectionTo(range) =>
         if Within(range, before + preedit + after) then Composing(before, preedit, after, range) else e
       case HostTerminates => Idle(before + preedit + after, selection))
  }

  lemma EditedIsSound(e: Editor, event: Event)
    requires Sound(e)
    ensures Sound(Edited(e, event))
  {
  }

  ghost function EditedAll(e: Editor, events: seq<Event>): (r: Editor)
    requires Sound(e)
    ensures Sound(r)
    decreases |events|
  {
    if events == [] then e
    else
      EditedIsSound(e, events[0]);
      EditedAll(Edited(e, events[0]), events[1..])
  }

  lemma ViewIsSound(s: Session)
    requires s.Tracked()
    ensures Sound(View(s))
  {
    if s.slot.Some? {
      var r := s.host.open[s.slot.value];
      assert s.host.text[..r.start] + s.host.text[r.start..r.end] + s.host.text[r.end..] == s.host.text;
    }
  }

  // ---------------------------------------------------------------- refinement: every call succeeds

  lemma EraseRefines(s: Session)
    requires s.Tracked()
    ensures Erased(s, {}).1 && Erased(s, {}).0.Tracked()
    ensures View(Erased(s, {}).0) == Edited(View(s), CancelComposition)
  {
    ViewIsSound(s);
  }

  lemma CommitRefines(s: Session, text: string)
    requires s.Tracked()
    ensures Committed(s, text, {}).1 && Committed(s, text, {}).0.Tracked()
    ensures View(Committed(s, text, {}).0) == Edited(View(s), Commit(text))
  {
    ViewIsSound(s);
  }

  /** Writing a non-empty text over a range the slot's composition covers makes it the new preedit. */
  lemma WriteRefines(s: Session, text: string)
    requires s.Tracked() && s.slot.Some? && text != []
    ensures var r := Written(s, s.host.open[s.slot.value], text, {});
            r.1 && r.0.Tracked() && View(r.0) == Edited(View(s), SetPreedit(text))
  {
    ViewIsSound(s);
    var range := s.host.open[s.slot.value];
    var out := Written(s, range, text, {}).0;
    assert out.host.open[s.slot.value] == Range(range.start, range.start + |text|);
    assert out.host.text[..range.start] == s.host.text[..range.start];
    assert out.host.text[range.start..range.start + |text|] == text;
    assert out.host.text[range.start + |text|..] == s.host.text[range.end..];
  }

  /** A composition started over a text just inserted at the selection. */
  lemma StartRefines(s: Session, text: string)
    requires s.Tracked() && s.slot == None && text != []
    ensures var inserted := SetText(s.host, s.host.selection, text);
            var range := Range(s.host.selection.start, s.host.selection.start + |text|);
            var started := Session(Open(inserted, range), Some(inserted.next));
            && started.Tracked() && started.host.open[inserted.next] == range
            && View(started) == Composing(s.host.text[..range.start], text, s.host.text[s.host.selection.end..], inserted.selection)
  {
    var inserted := SetText(s.host, s.host.selection, text);
    var range := Range(s.host.selection.start, s.host.selection.start + |text|);
    assert inserted.text[..range.start] == s.host.text[..range.start];
    assert inserted.text[range.start..range.end] == text;
    assert inserted.text[range.end..] == s.host.text[s.host.selection.end..];
  }

  lemma PreeditRefines(s: Session, text: string)
    requires s.Tracked()
    ensures var r := Preedited(s, text, {});
            r.1 && r.0.Tracked() && View(r.0) == Edited(View(s), SetPreedit(text))
  {
    ViewIsSound(s);
    if text == [] {
      EraseRefines(s);
    } else if s.slot.Some? {
      WriteRefines(s, text);
    } else {
      var inserted := SetText(s.host, s.host.selection, text);
      var range := Range(s.host.selection.start, s.host.selection.start + |text|);
      var started := Session(Open(inserted, range), Some(inserted.next));
      StartRefines(s, text);
      ViewIsSound(started);
      WriteRefines(started, text);
      assert Preedited(s, text, {}) == Written(started, range, text, {});
    }
  }

  /** One event on the host does what the reference editor does, and is reported as applied. */
  lemma StepRefines(s: Session, event: Event)
    requires s.Tracked()
    ensures Sound(View(s))
    ensures Step(s, event, {}).1 && Step(s, event, {}).0.Tracked()
    ensures View(Step(s, event, {}).0) == Edited(View(s), event)
  {
    ViewIsSound(s);
    match event {
      case SetPreedit(text) => PreeditRefines(s, text);
      case Commit(text) => CommitRefines(s, text);
      case CancelComposition => EraseRefines(s);
      case MoveSelectionTo(range) =>
        if s.slot.Some? {
          var r := s.host.open[s.slot.value];
          assert s.host.text[..r.start] + s.host.text[r.start..r.end] + s.host.text[r.end..] == s.host.text;
        }
      case HostTerminates =>
        if s.slot.Some? {
          var r := s.host.open[s.slot.value];
          assert s.host.text[..r.start] + s.host.text[r.start..r.end] + s.host.text[r.end..] == s.host.text;
        }
    }
  }

  /** Any run is a run of the reference editor, and the slot stays in step with the host throughout. */
  lemma {:induction false} RunRefines(s: Session, events: seq<Event>)
    requires s.Tracked()
    ensures Sound(View(s))
    ensures Run(s, events).Tracked()
    ensures View(Run(s, events)) == EditedAll(View(s), events)
    decreases |events|
  {
    ViewIsSound(s);
    if events != [] {
      StepRefines(s, events[0]);
      RunRefines(Step(s, events[0], {}).0, events[1..]);
    }
  }

  // ---------------------------------------------------------------- what the reference editor promises

  /** The text without the preedit. */
  ghost function Base(e: Editor): string {
    match e
    case Idle(text, _) => text
    case Composing(before, _, after, _) => before + after
  }

  /** Composing, or done composing, at position `p` of `text`, with the caret where typing goes on. */
  ghost predicate TypingAt(e: Editor, text: string, p: nat) {
    && p <= |text|
    && match e
       case Idle(now, selection) => now == text && selection == Caret(p)
       case Composing(before, preedit, after, selection) =>
         before == text[..p] && after == text[p..] && preedit != [] && selection == Caret(p + |preedit|)
  }

  predicate Preediting(event: Event) { event.SetPreedit? || event.CancelComposition? }

  lemma {:induction false} PreeditingStaysPut(e: Editor, events: seq<Event>, text: string, p: nat)
    requires Sound(e) && TypingAt(e, text, p)
    requires forall i :: 0 <= i < |events| ==> Preediting(events[i])
    ensures TypingAt(EditedAll(e, events), text, p)
    decreases |events|
  {
    if events != [] {
      assert Preediting(events[0]);
      assert text[..p] + text[p..] == text;
      EditedIsSound(e, events[0]);
      PreeditingStaysPut(Edited(e, events[0]), events[1..], text, p);
    }
  }

  lemma TypingSettles(e: Editor, text: string, p: nat, last: Event)
    requires Sound(e) && TypingAt(e, text, p)
    requires last == CancelComposition || last == SetPreedit([]) || last.Commit?
    ensures Edited(e, last) == if last.Commit? then Idle(text[..p] + last.text + text[p..], Caret(p + |last.text|))
                               else Idle(text, Caret(p))
  {
    assert text[..p] + text[p..] == text;
  }

  /** From an empty selection at `p` and no composition, whatever is preedited: an empty preedit or a
      cancel restores the text and the caret, a commit inserts its text at `p` and leaves the caret
      behind it, and either way no composition is left. */
  lemma TypingEnds(s: Session, p: nat, events: seq<Event>, last: Event)
    requires s.Tracked() && s.slot == None && s.host.selection == Caret(p)
    requires forall i :: 0 <= i < |events| ==> Preediting(events[i])
    requires last == CancelComposition || last == SetPreedit([]) || last.Commit?
    ensures var out := Step(Run(s, events), last, {}).0;
            && out.slot == None && out.host.open == map[]
            && (if last.Commit? then
                  && out.host.text == s.host.text[..p] + last.text + s.host.text[p..]
                  && out.host.selection == Caret(p + |last.text|)
                else
                  out.host.text == s.host.text && out.host.selection == Caret(p))
  {
    RunRefines(s, events);
    PreeditingStaysPut(View(s), events, s.host.text, p);
    TypingSettles(EditedAll(View(s), events), s.host.text, p, last);
    StepRefines(Run(s, events), last);
    var out := Step(Run(s, events), last, {}).0;
    assert out.slot == None && out.host.open.Keys == {};
    assert out.host.open == map[];
  }

  /** Once composing, neither further preedits nor any move of the selection shift the place a commit
      goes to. */
  lemma {:induction false} CommitIgnoresTheCaret(e: Editor, events: seq<Event>, text: string)
    requires Sound(e) && e.Composing?
    requires forall i :: 0 <= i < |events| ==>
               events[i].MoveSelectionTo? || (events[i].SetPreedit? && events[i].text != [])
    ensures Edited(EditedAll(e, events), Commit(text)) == Idle(e.before + text + e.after, Caret(|e.before| + |text|))
    decreases |events|
  {
    if events != [] {
      assert events[0].MoveSelectionTo? || (events[0].SetPreedit? && events[0].text != []);
      EditedIsSound(e, events[0]);
      CommitIgnoresTheCaret(Edited(e, events[0]), events[1..], text);
    }
  }

  /** So on the host: the text goes where the composition stood when the moves began. */
  lemma HostCommitIgnoresTheCaret(s: Session, events: seq<Event>, text: string)
    requires s.Tracked() && s.slot.Some?
    requires forall i :: 0 <= i < |events| ==>
               events[i].MoveSelectionTo? || (events[i].SetPreedit? && events[i].text != [])
    ensures var out := Step(Run(s, events), Commit(text), {}).0;
            var r := s.host.open[s.slot.value];
            && out.slot == None && out.host.open.Keys == {}
            && out.host.text == s.host.text[..r.start] + text + s.host.text[r.end..]
            && out.host.selection == Caret(r.start + |text|)
  {
    RunRefines(s, events);
    CommitIgnoresTheCaret(View(s), events, text);
    StepRefines(Run(s, events), Commit(text));
  }

  predicate IsCaret(r: Range) { r.start == r.end }

  /** A change of the text without the preedit. */
  datatype Change = Change(range: Range, text: string)

  /** What an event does to the text without the preedit: a commit writes its text where the preedit stands
      or over the selection, a new preedit takes the selected text away, and a preedit the host itself ends
      stays. Nothing else changes it. */
  ghost function ChangeBy(e: Editor, event: Event): Change
    requires Sound(e)
  {
    match e
    case Idle(_, selection) =>
      (match event
       case Commit(t) => Change(selection, t)
       case SetPreedit(t) => if t == [] then Change(Caret(0), []) else Change(selection, [])
       case _ => Change(Caret(0), []))
    case Composing(before, preedit, _, _) =>
      (match event
       case Commit(t) => Change(Caret(|before|), t)
       case HostTerminates => Change(Caret(|before|), preedit)
       case _ => Change(Caret(0), []))
  }

  function Changed(text: string, change: Change): string {
    if change.range.start <= change.range.end <= |text| then Replaced(text, change.range, change.text) else text
  }

  ghost function Changes(e: Editor, events: seq<Event>): seq<Change>
    requires Sound(e)
    decreases |events|
  {
    if events == [] then []
    else
      EditedIsSound(e, events[0]);
      [ChangeBy(e, events[0])] + Changes(Edited(e, events[0]), events[1..])
  }

  function ChangedAll(text: string, changes: seq<Change>): string
    decreases |changes|
  {
    if changes == [] then text else ChangedAll(Changed(text, changes[0]), changes[1..])
  }

  lemma StepChanges(e: Editor, event: Event)
    requires Sound(e)
    ensures Within(ChangeBy(e, event).range, Base(e))
    ensures Base(Edited(e, event)) == Changed(Base(e), ChangeBy(e, event))
  {
    assert Replaced(Base(e), Caret(0), []) == Base(e);
    if e.Composing? {
      assert Base(e)[..|e.before|] == e.before && Base(e)[|e.before|..] == e.after;
    }
  }

  /** Preedit never leaks: over any run, the text without the preedit is what it was before, changed in turn
      by the commits, by the selections that new preedits replaced, and by the preedits the host ended. */
  lemma {:induction false} NothingLeaks(e: Editor, events: seq<Event>)
    requires Sound(e)
    ensures Base(EditedAll(e, events)) == ChangedAll(Base(e), Changes(e, events))
    decreases |events|
  {
    if events != [] {
      EditedIsSound(e, events[0]);
      StepChanges(e, events[0]);
      NothingLeaks(Edited(e, events[0]), events[1..]);
    }
  }

  /** The host's text without the tracked composition. */
  ghost function TextBeside(s: Session): string
    requires s.Valid()
  {
    if s.slot.None? then s.host.text
    else s.host.text[..s.host.open[s.slot.value].start] + s.host.text[s.host.open[s.slot.value].end..]
  }

  /** So for the text of the host. */
  lemma HostTextNeverLeaks(s: Session, events: seq<Event>)
    requires s.Tracked()
    ensures Sound(View(s))
    ensures TextBeside(Run(s, events)) == ChangedAll(TextBeside(s), Changes(View(s), events))
    ensures Run(s, events).slot.None? ==> Run(s, events).host.text == ChangedAll(TextBeside(s), Changes(View(s), events))
  {
    RunRefines(s, events);
    NothingLeaks(View(s), events);
  }

  // ---------------------------------------------------------------- failing calls

  /** The commit text reaches the composition range. */
  predicate Lands(faults: Faults) { !RangeEditFails(faults) }

  /** Every call of the composition path succeeds. */
  predicate Completes(faults: Faults) { Lands(faults) && !CaretFails(faults) && !FinishFails(faults) }

  /** The selection path, once taken, writes its text. */
  predicate FallsBack(faults: Faults) { GetSelection !in faults && SetSelectedText !in faults }

  predicate Doubles(faults: Faults) { Lands(faults) && !Completes(faults) && FallsBack(faults) }

  /** Where the composition path leaves the selection: behind its text, unless a call before that fails. */
  ghost function SelectionAfterActive(s: Session, text: string, faults: Faults): Range
    requires s.Valid() && s.slot.Some?
  {
    var range := s.host.open[s.slot.value];
    if !Lands(faults) then s.host.selection
    else if CaretFails(faults) then Moved(s.host.selection, range, |text|)
    else Caret(range.start + |text|)
  }

  /** The composition path alone: it writes the text in place of the preedit, or leaves the preedit. */
  lemma ActiveUnderFaults(s: Session, text: string, faults: Faults)
    requires s.Tracked() && s.slot.Some?
    ensures var out := CommittedActive(s, text, faults);
            var e := View(s);
            && out.0.host.text == e.before + (if Lands(faults) then text else e.preedit) + e.after
            && out.0.host.selection == SelectionAfterActive(s, text, faults)
  {
    var r := s.host.open[s.slot.value];
    assert s.host.text[..r.start] + s.host.text[r.start..r.end] + s.host.text[r.end..] == s.host.text;
  }

  /** The composition path alone: what it leaves open. */
  lemma ActiveLeavesOpen(s: Session, text: string, faults: Faults)
    requires s.Tracked() && s.slot.Some?
    ensures var out := CommittedActive(s, text, faults);
            && (out.0.host.open.Keys == if Completes(faults) then {} else {s.slot.value})
            && (out.1 <==> Completes(faults))
  {
  }

  /** The selection path alone: its text once, over the selection, if it gets that far. */
  lemma FallbackUnderFaults(h: Host, text: string, faults: Faults)
    requires h.Valid()
    ensures var out := CommittedAtSelection(h, text, faults);
            && out.0.text == (if FallsBack(faults) then h.text[..h.selection.start] + text + h.text[h.selection.end..] else h.text)
            && out.0.open.Keys == h.open.Keys
            && (out.1 <==> FallsBack(faults) && CollapseSelected !in faults && CloneSelected !in faults)
  {
  }

  /** A commit over a composition, under any failing calls and wherever the selection is: the text is written
      in place of the preedit if its range could be written, and once more over the selection if the
      composition path failed after all and the selection path worked. So it is inserted twice exactly when
      all three hold, the preedit stays in the text exactly when its range could not be written, and the
      host's composition is left open, with the slot already empty, exactly when the composition path failed. */
  lemma CommitUnderFaults(s: Session, text: string, faults: Faults)
    requires s.Tracked() && s.slot.Some?
    ensures var out := Committed(s, text, faults);
            var e := View(s);
            var once := e.before + (if Lands(faults) then text else e.preedit) + e.after;
            var at := SelectionAfterActive(s, text, faults);
            && Within(at, once)
            && out.0.host.text == (if !Completes(faults) && FallsBack(faults) then once[..at.start] + text + once[at.end..] else once)
            && (out.0.host.open == map[] <==> Completes(faults))
            && out.0.slot == None
            && (out.1 <==> Completes(faults) || (FallsBack(faults) && CollapseSelected !in faults && CloneSelected !in faults))
  {
    ActiveUnderFaults(s, text, faults);
    ActiveLeavesOpen(s, text, faults);
    FallbackUnderFaults(CommittedActive(s, text, faults).0.host, text, faults);
    var open := Committed(s, text, faults).0.host.open;
    assert open.Keys == if Completes(faults) then {} else {s.slot.value};
    assert open == map[] <==> open.Keys == {};
  }

  /** Which single failing calls make a commit appear twice: everything on the composition path after
      its text is written, up to and including the end of the composition. */
  lemma SingleCallDoubles(call: Call)
    ensures Doubles({call})
       <==> call in {CloneCaret, CollapseCaret, SetSelection, CloneAnchor, CollapseAnchor, EndComposition}
  {
  }

  /** A single failing call that does not reach the composition's range leaves the preedit in the text and
      the composition open, and the commit goes over the selection. */
  lemma RangeCallFails(s: Session, text: string, call: Call)
    requires s.Tracked() && s.slot.Some? && call in {GetRange, SetRangeText}
    ensures var out := Committed(s, text, {call});
            out.1 && out.0.host.text == Replaced(s.host.text, s.host.selection, text) && out.0.host.open != map[]
  {
    assert Committed(s, text, {call}).0.host.open.Keys == s.host.open.Keys;
  }

  /** One that fails to set the caret behind the text makes the commit appear twice: the second time where
      the selection has been carried to. */
  lemma CaretCallFails(s: Session, text: string, call: Call)
    requires s.Tracked() && s.slot.Some? && call in {CloneCaret, CollapseCaret, SetSelection}
    ensures var out := Committed(s, text, {call});
            var range := s.host.open[s.slot.value];
            var once := Replaced(s.host.text, range, text);
            var at := Moved(s.host.selection, range, |text|);
            out.1 && Within(at, once) && out.0.host.text == Replaced(once, at, text) && out.0.host.open != map[]
  {
    var written := SetText(s.host, s.host.open[s.slot.value], text);
    assert CommittedActive(s, text, {call}) == (Session(written, None), false);
    assert Committed(s, text, {call}).0.host.open.Keys == s.host.open.Keys;
  }

  /** One that fails to end the composition makes it appear twice in a row. */
  lemma FinishingCallFails(s: Session, text: string, call: Call)
    requires s.Tracked() && s.slot.Some? && call in {CloneAnchor, CollapseAnchor, EndComposition}
    ensures var out := Committed(s, text, {call});
            var e := View(s);
            out.1 && out.0.host.text == e.before + text + text + e.after && out.0.host.open != map[]
  {
    var range := s.host.open[s.slot.value];
    var selected := Select(SetText(s.host, range, text), Caret(range.start + |text|));
    assert CommittedActive(s, text, {call}) == (Session(selected, None), false);
    assert Committed(s, text, {call}).0.host.open.Keys == s.host.open.Keys;
    assert selected.text[..range.start + |text|] == View(s).before + text;
    assert selected.text[range.start + |text|..] == View(s).after;
  }

  /** No other single call makes a difference. */
  lemma OtherCallFails(s: Session, text: string, call: Call)
    requires s.Tracked() && s.slot.Some?
    requires call !in {GetRange, SetRangeText, CloneCaret, CollapseCaret, SetSelection, CloneAnchor, CollapseAnchor, EndComposition}
    ensures Committed(s, text, {call}) == Committed(s, text, {}) && Committed(s, text, {}).1
  {
    var one: Faults := {call};
    var none: Faults := {};
    assert !RangeEditFails(one) && !CaretFails(one) && !FinishFails(one);
    assert !RangeEditFails(none) && !CaretFails(none) && !FinishFails(none);
    assert CommittedActive(s, text, one) == CommittedActive(s, text, none) && CommittedActive(s, text, none).1;
  }

  /** Erasing a composition under any failing calls: the text is restored exactly when the range could
      be emptied, and the composition is closed exactly when ending it worked too. */
  lemma EraseUnderFaults(s: Session, faults: Faults)
    requires s.Tracked() && s.slot.Some?
    ensures var out := Erased(s, faults).0;
            && (out.host.text == Base(View(s)) <==> Lands(faults))
            && (!Lands(faults) ==> out.host.text == s.host.text)
            && (out.host.open == map[] <==> Lands(faults) && EndComposition !in faults)
            && (Erased(s, faults).1 <==> out.host.open == map[])
  {
    var r := s.host.open[s.slot.value];
    var out := Erased(s, faults).0;
    assert |Base(View(s))| < |s.host.text|;
    if Lands(faults) && EndComposition !in faults {
      assert out.host.open.Keys == {};
      assert out.host.open == map[];
    } else {
      assert s.slot.value in out.host.open;
    }
  }

  /** The inserted preedit is not taken back: composing over it failed and clearing it failed too, or
      the new composition was started but its range could not be read (it is then ended as it is). */
  predicate Leaves(faults: Faults) {
    Inserts(faults) && if Composes(faults) then RangeAfterStart in faults else ClearInserted in faults
  }

  predicate Inserts(faults: Faults) { GetInserter !in faults && InsertText !in faults }

  predicate Composes(faults: Faults) { GetCompositionContext !in faults && StartComposition !in faults }

  /** What starting a preedit leaves in place of the selection. */
  function LeftBehind(text: string, faults: Faults): string {
    if Composes(faults) || ClearInserted in faults then text else []
  }

  /** Starting a preedit over the selection under any failing calls: it is untouched until the text is
      inserted; then it is gone, and the text stands in its place unless it was taken back. */
  lemma PreeditUnderFaults(s: Session, text: string, faults: Faults)
    requires s.Tracked() && s.slot == None && text != []
    ensures var out := Preedited(s, text, faults).0;
            var h := s.host;
            && out.host.text == (if Inserts(faults) then h.text[..h.selection.start] + LeftBehind(text, faults) + h.text[h.selection.end..] else h.text)
            && (out.slot.Some? <==> Inserts(faults) && Composes(faults) && RangeAfterStart !in faults)
  {
    var h := s.host;
    if Inserts(faults) {
      var inserted := SetText(h, h.selection, text);
      var range := Range(h.selection.start, h.selection.start + |text|);
      assert inserted.text[..range.start] == h.text[..range.start] && inserted.text[range.end..] == h.text[h.selection.end..];
      if Composes(faults) && RangeAfterStart !in faults {
        WrittenAgain(Session(Open(inserted, range), Some(inserted.next)), range, text, faults);
      }
    }
  }

  /** Writing a text over itself. */
  lemma WrittenAgain(s: Session, range: Range, text: string, faults: Faults)
    requires s.Valid() && Within(range, s.host.text) && s.host.text[range.start..range.end] == text
    ensures Written(s, range, text, faults).0.host.text == s.host.text
  {
    assert s.host.text[..range.start] + s.host.text[range.start..range.end] + s.host.text[range.end..] == s.host.text;
  }

  /** At a caret: unless a composition is tracked afterwards, the text is as before, except exactly when the
      insertion is left in it; and the slot stays in step with the host except when ending a new composition
      fails too. */
  lemma PreeditAtCaretUnderFaults(s: Session, text: string, faults: Faults)
    requires s.Tracked() && s.slot == None && IsCaret(s.host.selection) && text != []
    ensures var out := Preedited(s, text, faults).0;
            && (out.slot == None && out.host.text != s.host.text <==> Leaves(faults))
            && (out.Tracked() <==> !(Leaves(faults) && Composes(faults) && EndAfterStart in faults))
  {
    var p := s.host.selection.start;
    var h := s.host;
    var out := Preedited(s, text, faults).0;
    PreeditUnderFaults(s, text, faults);
    assert h.text[..p] + h.text[p..] == h.text;
    assert h.text[..p] + [] + h.text[p..] == h.text;
    assert |h.text[..p] + text + h.text[p..]| == |h.text| + |text|;
    if Inserts(faults) && Composes(faults) {
      var inserted := SetText(h, h.selection, text);
      if RangeAfterStart !in faults {
        assert out.host.open.Keys == {inserted.next};
        assert out.host.open[inserted.next] == Range(p, p + |text|);
      } else if EndAfterStart in faults {
        assert inserted.next in out.host.open;
      }
    }
  }

  /** A preedit over a tracked composition under any failing calls: it takes the old one's place or leaves
      it, and the composition stays tracked. */
  lemma PreeditOverUnderFaults(s: Session, text: string, faults: Faults)
    requires s.Tracked() && s.slot.Some? && text != []
    ensures var out := Preedited(s, text, faults);
            var e := View(s);
            && out.0.Tracked() && out.0.slot == s.slot
            && out.0.host.text == e.before + (if Lands(faults) then text else e.preedit) + e.after
            && (out.1 <==> Lands(faults) && !CaretFails(faults))
  {
    var r := s.host.open[s.slot.value];
    assert s.host.text[..r.start] + s.host.text[r.start..r.end] + s.host.text[r.end..] == s.host.text;
  }

  // ---------------------------------------------------------------- the handlers, step by step

  /** The event that applying an action is. The cursor of a preedit is not looked at. */
  function EventOf(kind: Protocol.ActionKind): Event {
    match kind
    case Commit(text) => Event.Commit(text)
    case SetPreedit(text, _) => Event.SetPreedit(text)
    case CancelComposition => Event.CancelComposition
  }

  /** A result sent back to the engine: the action's id, and whether it was applied. */
  datatype ActionResult = ActionResult(action: nat, applied: bool)

  /** One run of a callback: whether the service is still alive, and which calls fail. */
  datatype CallbackRun = CallbackRun(alive: bool, faults: Faults)

  class DocumentContext {
    var host: Host
    var slot: Option<nat>
    var sent: seq<ActionResult>

    constructor (host: Host)
      requires host.Valid()
      ensures Model() == Session(host, None) && Model().Valid() && sent == []
    {
      this.host, slot, sent := host, None, [];
    }

    function Model(): Session
      reads `host, `slot
    {
      Session(host, slot)
    }

    method SendResult(action: nat, applied: bool)
      modifies `sent
      ensures sent == old(sent) + [ActionResult(action, applied)]
    {
      sent := sent + [ActionResult(action, applied)];
    }

    method SetSelectionAtRangeEnd(range: Range, faults: Faults) returns (ok: bool)
      requires Model().Valid() && Within(range, host.text)
      modifies `host
      ensures ok == !CaretFails(faults)
      ensures host == if ok then Select(old(host), Caret(range.end)) else old(host)
    {
      if CloneCaret in faults {
        return false;
      }
      if CollapseCaret in faults {
        return false;
      }
      if SetSelection in faults {
        return false;
      }
      host := Select(host, Caret(range.end));
      ok := true;
    }

    method EndActiveComposition(faults: Faults)
      requires Model().Valid()
      modifies `host, `slot
      ensures slot == None
      ensures host == if old(slot).Some? && EndComposition !in faults then Close(old(host), old(slot).value) else old(host)
    {
      var composition := slot;
      slot := None;
      if composition.Some? && EndComposition !in faults {
        host := Close(host, composition.value);
      }
    }

    method CommitActiveComposition(text: string, faults: Faults) returns (ok: bool)
      requires Model().Valid()
      modifies `host, `slot
      ensures Model() == CommittedActive(old(Model()), text, faults).0
      ensures ok == CommittedActive(old(Model()), text, faults).1
    {
      var composition := slot;
      slot := None;
      if composition.None? || GetRange in faults {
        return false;
      }
      var range := host.open[composition.value];
      if SetRangeText in faults {
        return false;
      }
      host := SetText(host, range, text);
      range := Range(range.start, range.start + |text|);
      ok := SetSelectionAtRangeEnd(range, faults);
      if !ok {
        return;
      }
      if CloneAnchor in faults {
        return false;
      }
      if CollapseAnchor in faults {
        return false;
      }
      if EndComposition in faults {
        return false;
      }
      host := Close(host, composition.value);
    }

    method CommitAtSelection(text: string, faults: Faults) returns (ok: bool)
      requires Model().Valid()
      modifies `host
      ensures host == CommittedAtSelection(old(host), text, faults).0
      ensures ok == CommittedAtSelection(old(host), text, faults).1
    {
      if GetSelection in faults {
        return false;
      }
      var range := host.selection;
      if SetSelectedText in faults {
        return false;
      }
      host := SetText(host, range, text);
      range := Range(range.start, range.start + |text|);
      if CollapseSelected in faults {
        return false;
      }
      range := Caret(range.end);
      if MoveSelection !in faults {
        host := Select(host, range);
      }
      ok := CloneSelected !in faults;
    }

    method HandleCommit(action: nat, text: string, faults: Faults)
      requires Model().Valid()
      modifies this
      ensures Model() == Committed(old(Model()), text, faults).0
      ensures sent == old(sent) + [ActionResult(action, Committed(old(Model()), text, faults).1)]
    {
      var ok := CommitActiveComposition(text, faults);
      if !ok {
        ok := CommitAtSelection(text, faults);
      }
      if ok {
        EndActiveComposition(faults);
      }
      SendResult(action, ok);
    }

    /** Take the tracked composition, empty its range, end it. */
    method EraseComposition(faults: Faults) returns (ok: bool)
      requires Model().Valid()
      modifies `host, `slot
      ensures Model() == Erased(old(Model()), faults).0
      ensures ok == Erased(old(Model()), faults).1
    {
      var composition := slot;
      slot := None;
      if composition.None? {
        return true;
      }
      if GetRange in faults {
        return false;
      }
      var range := host.open[composition.value];
      if SetRangeText in faults {
        return false;
      }
      host := SetText(host, range, []);
      if EndComposition in faults {
        return false;
      }
      host := Close(host, composition.value);
      ok := true;
    }

    /** Insert the text first and start a composition over it. */
    method StartPreedit(text: string, faults: Faults) returns (range: Option<Range>)
      requires Model().Valid() && slot == None && text != []
      modifies `host, `slot
      ensures range.None? ==> Model() == Preedited(old(Model()), text, faults).0 && !Preedited(old(Model()), text, faults).1
      ensures range.Some? ==>
                && Model().Valid() && Within(range.value, host.text)
                && Written(Model(), range.value, text, faults) == Preedited(old(Model()), text, faults)
    {
      range := None;
      if GetInserter in faults {
        return;
      }
      if InsertText in faults {
        return;
      }
      var inserted := Range(host.selection.start, host.selection.start + |text|);
      host := SetText(host, host.selection, text);
      if GetCompositionContext in faults || StartComposition in faults {
        if ClearInserted !in faults {
          host := SetText(host, inserted, []);
        }
        return;
      }
      var composition := host.next;
      host := Open(host, inserted);
      if RangeAfterStart in faults {
        if EndAfterStart !in faults {
          host := Close(host, composition);
        }
        return;
      }
      slot := Some(composition);
      range := Some(inserted);
    }

    method HandleSetPreedit(action: nat, text: string, faults: Faults)
      requires Model().Valid()
      modifies this
      ensures Model() == Preedited(old(Model()), text, faults).0
      ensures sent == old(sent) + [ActionResult(action, Preedited(old(Model()), text, faults).1)]
    {
      var ok := false;
      if text == [] {
        ok := EraseComposition(faults);
      } else {
        var range := None;
        if slot.None? {
          range := StartPreedit(text, faults);
        } else if GetRange !in faults {
          range := Some(host.open[slot.value]);
        }
        if range.Some? && SetRangeText !in faults {
          host := SetText(host, range.value, text);
          ok := SetSelectionAtRangeEnd(Range(range.value.start, range.value.start + |text|), faults);
        }
      }
      SendResult(action, ok);
    }

    method HandleCancelComposition(action: nat, faults: Faults)
      requires Model().Valid()
      modifies this
      ensures Model() == Erased(old(Model()), faults).0
      ensures sent == old(sent) + [ActionResult(action, Erased(old(Model()), faults).1)]
    {
      var ok := EraseComposition(faults);
      SendResult(action, ok);
    }
  }

  /** What the first run of a callback does to the document, and the result it sends. */
  ghost function FirstRun(s: Session, action: Protocol.PlatformAction, runs: seq<CallbackRun>): (r: (Session, seq<ActionResult>))
    requires s.Valid()
    ensures r.0.Valid()
  {
    if runs == [] then (s, [])
    else if !runs[0].alive then (s, [ActionResult(action.id, false)])
    else (Step(s, EventOf(action.kind), runs[0].faults).0, [ActionResult(action.id, Step(s, EventOf(action.kind), runs[0].faults).1)])
  }

  class EditSessionCallback {
    var data: Option<Protocol.PlatformAction>
    const target: DocumentContext

    constructor (action: Protocol.PlatformAction, target: DocumentContext)
      ensures data == Some(action) && this.target == target
    {
      data := Some(action);
      this.target := target;
    }

    /** The payload is taken by the first run; later runs find none. */
    method DoEditSession(run: CallbackRun)
      requires target.Model().Valid()
      modifies this, target
      ensures data == None
      ensures target.Model().Valid()
      ensures old(data).None? ==> target.Model() == old(target.Model()) && target.sent == old(target.sent)
      ensures old(data).Some? ==>
                && target.Model() == FirstRun(old(target.Model()), old(data).value, [run]).0
                && target.sent == old(target.sent) + FirstRun(old(target.Model()), old(data).value, [run]).1
    {
      var taken := data;
      data := None;
      if taken.None? {
        return;
      }
      var action := taken.value;
      if !run.alive {
        target.SendResult(action.id, false);
        return;
      }
      match action.kind {
        case Commit(text) => target.HandleCommit(action.id, text, run.faults);
        case SetPreedit(text, _) => target.HandleSetPreedit(action.id, text, run.faults);
        case CancelComposition => target.HandleCancelComposition(action.id, run.faults);
      }
    }

    method DoEditSessions(runs: seq<CallbackRun>)
      requires target.Model().Valid()
      modifies this, target
      ensures target.Model().Valid()
      ensures data == if runs == [] then old(data) else None
      ensures old(data).None? ==> target.Model() == old(target.Model()) && target.sent == old(target.sent)
      ensures old(data).Some? ==>
                && target.Model() == FirstRun(old(target.Model()), old(data).value, runs).0
                && target.sent == old(target.sent) + FirstRun(old(target.Model()), old(data).value, runs).1
    {
      if runs != [] {
        DoEditSession(runs[0]);
        DoEditSessions(runs[1..]);
      }
    }
  }

  /** On a document that composes nothing, an action that reaches it does what its kind says, and the result
      says so. The cursor that comes with a preedit is not looked at: the caret goes behind it. */
  lemma ActionDoesWhatItSays(s: Session, action: Protocol.PlatformAction)
    requires s.Tracked() && s.slot == None
    ensures var text, at := s.host.text, s.host.selection;
            var out := FirstRun(s, action, [CallbackRun(true, {})]);
            && out.1 == [ActionResult(action.id, true)]
            && out.0.Tracked()
            && View(out.0) == match action.kind
                              case Commit(t) => Idle(text[..at.start] + t + text[at.end..], Caret(at.start + |t|))
                              case SetPreedit(t, _) =>
                                if t == [] then Idle(text, at)
                                else Composing(text[..at.start], t, text[at.end..], Caret(at.start + |t|))
                              case CancelComposition => Idle(text, at)
  {
    StepRefines(s, EventOf(action.kind));
  }

  /** `request_edit_session`, together with everything the host later does with the callback: it runs it any
      number of times during the request and afterwards, and accepts the request or not. The document changes
      by the first run alone, and not at all if the service is dead by then. Two results may be sent: by the
      first run, whether its action was applied, and for a rejected request, that it was not. They come in the
      order of the run and the rejection; so an accepted callback that is never run is not answered, and a
      rejected one that runs is answered twice. */
  method RequestEditSession(document: DocumentContext, action: Protocol.PlatformAction, during: seq<CallbackRun>, accepted: bool,
                            later: seq<CallbackRun>)
    requires document.Model().Valid()
    modifies document
    ensures var runs := during + later;
            && (runs == [] || !runs[0].alive ==> document.Model() == old(document.Model()))
            && (runs != [] && runs[0].alive ==>
                  document.Model() == Step(old(document.Model()), EventOf(action.kind), runs[0].faults).0)
    ensures var runs := during + later;
            var ran := if runs == [] then []
                       else [ActionResult(action.id, runs[0].alive && Step(old(document.Model()), EventOf(action.kind), runs[0].faults).1)];
            var refused := if accepted then [] else [ActionResult(action.id, false)];
            document.sent == old(document.sent) + if during == [] then refused + ran else ran + refused
  {
    ghost var before := document.sent;
    var callback := new EditSessionCallback(action, document);
    callback.DoEditSessions(during);
    if !accepted {
      document.SendResult(action.id, false);
    }
    callback.DoEditSessions(later);
    assert during != [] ==> (during + later)[0] == during[0];
    assert during == [] ==> during + later == later;
  }
}
