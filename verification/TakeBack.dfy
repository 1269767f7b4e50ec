/** The document and the learning window together: when a Backspace sends a commit's token back, what it
    deleted was the end of that commit's text. */
module TakeBack {
  import opened Wrappers
  import opened EditSession
  import Rollback

  // ---------------------------------------------------------------- deleting before the caret

  /** The calls of `delete_previous_selection_unit` that may fail. */
  datatype DeletionCall = ReadSelection | AskEmpty | CompareStart | CompareEnd | ShiftStart | SetEmpty | Collapse | MoveBack

  datatype Outcome = Failed | Deleted(matches: bool)

  predicate Compares(faults: set<DeletionCall>) { CompareStart !in faults && CompareEnd !in faults }

  /** The range that a Backspace empties. */
  function Doomed(h: Host): Range
    requires h.selection != Caret(0)
  {
    if h.selection.start == h.selection.end then Range(h.selection.start - 1, h.selection.end) else h.selection
  }

  function Delete(h: Host, anchor: Option<Range>, faults: set<DeletionCall>): (Host, Outcome)
    requires h.Valid()
  {
    if ReadSelection in faults || AskEmpty in faults then (h, Failed)
    else if IsCaret(h.selection) && ShiftStart in faults then (h, Failed)
    else if h.selection == Caret(0) then (h, Deleted(false))
    else if SetEmpty in faults then (h, Failed)
    else
      var out := SetText(h, Doomed(h), []);
      if Collapse in faults || MoveBack in faults then (out, Failed)
      else (Select(out, Caret(Doomed(h).start)), Deleted(IsCaret(h.selection) && anchor == Some(h.selection) && Compares(faults)))
  }

  function Saved(anchors: map<nat, Range>, id: Option<nat>): Option<Range> {
    if id.Some? && id.value in anchors then Some(anchors[id.value]) else None
  }

  /** What the learning window sees of a deletion. */
  function Seen(h: Host, anchors: map<nat, Range>, faults: set<DeletionCall>): Rollback.Deletion {
    var here := set id | id in anchors && anchors[id] == h.selection && Compares(faults);
    Rollback.Deletion(IsCaret(h.selection), here, h.selection.start > 0,
                      faults !! {ReadSelection, AskEmpty, ShiftStart, SetEmpty, Collapse, MoveBack})
  }

  lemma DeletionIsSeen(h: Host, anchors: map<nat, Range>, id: Option<nat>, faults: set<DeletionCall>)
    requires h.Valid()
    ensures Rollback.RemovesAt(Seen(h, anchors, faults), id) <==> Delete(h, Saved(anchors, id), faults).1 == Deleted(true)
  {
  }

  /** What a Backspace does to the document under failing calls: it empties the selection, or takes the unit
      before the caret; it changes nothing if a call before that fails or there is nothing before the caret. The
      caret is set where the text went, unless one of the two calls for that fails. */
  lemma DeletionUnderFaults(h: Host, anchor: Option<Range>, faults: set<DeletionCall>)
    requires h.Valid()
    ensures var out := Delete(h, anchor, faults).0;
            var r := h.selection;
            var start := if r.start == r.end && r.start > 0 then r.start - 1 else r.start;
            var early := ReadSelection in faults || AskEmpty in faults || SetEmpty in faults
                         || (r.start == r.end && (ShiftStart in faults || r.start == 0));
            if early then out == h
            else
              && out.text == h.text[..start] + h.text[r.end..] && out.open.Keys == h.open.Keys
              && out.selection == Caret(start)
  {
    if h.selection != Caret(0) {
      var d := Doomed(h);
      assert h.text[..d.start] + [] + h.text[d.end..] == h.text[..d.start] + h.text[d.end..];
    }
  }

  // ---------------------------------------------------------------- the document under a learning window

  /** The document, the anchors by identity, and the window. */
  datatype World = World(session: Session, anchors: map<nat, Range>, learning: Rollback.State)

  datatype Happening =
    | Commits(text: string, token: nat, context: Option<nat>, anchor: Option<nat>, now: nat, faults: Faults)
    | Edits(range: Range, text: string)
    | Selects(range: Range)
    | Backspaces(identity: Option<nat>, at: nat, failing: set<DeletionCall>)
    | Notices(event: Rollback.Event)

  /** The ranges a commit writes its text over, in order. */
  function Places(s: Session, text: string, faults: Faults): seq<Range>
    requires s.Valid()
  {
    var active := CommittedActive(s, text, faults);
    (if s.slot.Some? && Lands(faults) then [s.host.open[s.slot.value]] else [])
    + (if !active.1 && FallsBack(faults) then [active.0.host.selection] else [])
  }

  /** Anchors move with every change of the text. */
  function Carried(anchors: map<nat, Range>, r: Range, n: nat): map<nat, Range>
    requires r.start <= r.end
  {
    map id | id in anchors :: Moved(anchors[id], r, n)
  }

  ghost predicate Fit(text: string, places: seq<Range>, t: string)
    decreases |places|
  {
    places == [] || (Within(places[0], text) && Fit(Replaced(text, places[0], t), places[1..], t))
  }

  ghost function Overwritten(text: string, places: seq<Range>, t: string): string
    requires Fit(text, places, t)
    decreases |places|
  {
    if places == [] then text else Overwritten(Replaced(text, places[0], t), places[1..], t)
  }

  lemma CommitWritesPlaces(s: Session, text: string, faults: Faults)
    requires s.Valid()
    ensures var places := Places(s, text, faults);
            && Fit(s.host.text, places, text)
            && Committed(s, text, faults).0.host.text == Overwritten(s.host.text, places, text)
            && (Committed(s, text, faults).1 ==> places != [])
  {
    var active := CommittedActive(s, text, faults);
    var second := if !active.1 && FallsBack(faults) then [active.0.host.selection] else [];
    assert Fit(active.0.host.text, second, text);
    assert Overwritten(active.0.host.text, second, text) == Committed(s, text, faults).0.host.text;
    if s.slot.Some? && Lands(faults) {
      var first := s.host.open[s.slot.value];
      assert active.0.host.text == Replaced(s.host.text, first, text);
      assert ([first] + second)[1..] == second;
    } else {
      assert [] + second == second;
    }
  }

  function CarriedAll(anchors: map<nat, Range>, places: seq<Range>, n: nat): map<nat, Range>
    decreases |places|
  {
    if places == [] || places[0].start > places[0].end then anchors else CarriedAll(Carried(anchors, places[0], n), places[1..], n)
  }

  /** One thing that happens to the document, and what the window learns of it. A commit whose text went in
      saves its own end under an identity of its own, if the context and the anchor could be had. */
  function Step(w: World, x: Happening): World
    requires w.session.Valid()
    ensures Step(w, x).session.Valid()
  {
    match x
    case Commits(text, token, context, anchor, now, faults) =>
      var out := Committed(w.session, text, faults);
      var places := Places(w.session, text, faults);
      var anchors := CarriedAll(w.anchors, places, |text|);
      if !out.1 then World(out.0, anchors, w.learning)
      else
        CommitWritesPlaces(w.session, text, faults);
        var end := Caret(places[|places| - 1].start + |text|);
        World(out.0, if context.Some? && anchor.Some? then anchors[anchor.value := end] else anchors,
              Rollback.Step(w.learning, Rollback.CommitApplied(token, context, anchor, now)))
    case Edits(range, text) =>
      if range.start <= range.end <= |w.session.host.text| then
        World(w.session.(host := SetText(w.session.host, range, text)), Carried(w.anchors, range, |text|), w.learning)
      else w
    case Selects(range) =>
      if range.start <= range.end <= |w.session.host.text| then w.(session := w.session.(host := Select(w.session.host, range))) else w
    case Backspaces(identity, at, failing) =>
      var h := w.session.host;
      var deleted := Delete(h, Saved(w.anchors, w.learning.anchor), failing);
      World(w.session.(host := deleted.0),
            if deleted.0.text == h.text || h.selection == Caret(0) then w.anchors else Carried(w.anchors, Doomed(h), 0),
            Rollback.Step(w.learning, Rollback.GuardedBackspace(identity, at, Seen(h, w.anchors, failing))))
    case Notices(event) =>
      if event.CommitApplied? || event.GuardedBackspace? then w else w.(learning := Rollback.Step(w.learning, event))
  }

  function After(w: World, happenings: seq<Happening>): (r: World)
    requires w.session.Valid()
    ensures r.session.Valid()
  {
    if happenings == [] then w
    else Step(After(w, happenings[..|happenings| - 1]), happenings[|happenings| - 1])
  }

  // ---------------------------------------------------------------- the last unit of a commit

  /** The commit arms the learning window. */
  predicate Arms(w: World, x: Happening)
    requires w.session.Valid()
  {
    x.Commits? && Committed(w.session, x.text, x.faults).1 && x.context.Some? && x.anchor.Some?
  }

  function LastArming(w: World, happenings: seq<Happening>): (r: Option<Happening>)
    requires w.session.Valid()
    ensures r.Some? ==> r.value.Commits?
  {
    if happenings == [] then None
    else
      var front, last := happenings[..|happenings| - 1], happenings[|happenings| - 1];
      if Arms(After(w, front), last) then Some(last) else LastArming(w, front)
  }

  /** The ranges of the text that a happening writes over, each with a text of the same length. */
  datatype Changes = Changes(places: seq<Range>, length: nat)

  function ChangesBy(w: World, x: Happening): Changes
    requires w.session.Valid()
  {
    match x
    case Commits(text, _, _, _, _, faults) => Changes(Places(w.session, text, faults), |text|)
    case Edits(range, text) => Changes(if range.start <= range.end <= |w.session.host.text| then [range] else [], |text|)
    case Backspaces(_, _, failing) =>
      var h := w.session.host;
      var untouched := h.selection == Caret(0) || Delete(h, Saved(w.anchors, w.learning.anchor), failing).0.text == h.text;
      Changes(if untouched then [] else [Doomed(h)], 0)
    case _ => Changes([], 0)
  }

  /** Where a unit stands after a change; nowhere once the change covers it. */
  function MovedUnit(p: nat, r: Range, n: nat): Option<nat>
    requires r.start <= r.end
  {
    if p < r.start then Some(p) else if p < r.end then None else Some(p - (r.end - r.start) + n)
  }

  function MovedUnitAll(p: nat, places: seq<Range>, n: nat): Option<nat>
    decreases |places|
  {
    if places == [] || places[0].start > places[0].end then Some(p)
    else
      match MovedUnit(p, places[0], n)
      case None => None
      case Some(q) => MovedUnitAll(q, places[1..], n)
  }

  /** Where the last unit of the text of the commit that armed last stands after one more happening, if it
      stood at `unit` before. */
  function UnitNow(w: World, x: Happening, unit: Option<nat>): Option<nat>
    requires w.session.Valid()
  {
    var changes := ChangesBy(w, x);
    if Arms(w, x) then
      CommitWritesPlaces(w.session, x.text, x.faults);
      if x.text == [] then None else Some(changes.places[|changes.places| - 1].start + |x.text| - 1)
    else if unit.Some? then MovedUnitAll(unit.value, changes.places, changes.length)
    else None
  }

  function UnitAfter(w: World, happenings: seq<Happening>): Option<nat>
    requires w.session.Valid()
  {
    if happenings == [] then None
    else
      var front := happenings[..|happenings| - 1];
      UnitNow(After(w, front), happenings[|happenings| - 1], UnitAfter(w, front))
  }

  /** A change that does not reach the unit before `at`. */
  predicate Spares(r: Range, at: nat) { r.end < at || at <= r.start }

  predicate SparesAll(places: seq<Range>, n: nat, at: nat)
    decreases |places|
  {
    places == [] || places[0].start > places[0].end
    || (Spares(places[0], at) && SparesAll(places[1..], n, MovedAnchor(at, places[0], n)))
  }

  predicate SparesNow(w: World, x: Happening)
    requires w.session.Valid()
  {
    var saved := Saved(w.anchors, w.learning.anchor);
    saved.Some? ==> SparesAll(ChangesBy(w, x).places, ChangesBy(w, x).length, saved.value.start)
  }

  /** Since the commit that armed last, no change has reached the unit before the saved anchor. */
  predicate SparedSince(w: World, happenings: seq<Happening>)
    requires w.session.Valid()
  {
    happenings != [] &&
    var front, x := happenings[..|happenings| - 1], happenings[|happenings| - 1];
    Arms(After(w, front), x) || (SparedSince(w, front) && SparesNow(After(w, front), x))
  }

  /** A change spares the unit before an anchor exactly when the unit is still somewhere after it, and that is
      before the anchor again. */
  lemma SparedUnitMoves(r: Range, n: nat, at: nat)
    requires r.start <= r.end && 0 < at
    ensures Spares(r, at) <==> MovedUnit(at - 1, r, n).Some?
    ensures Spares(r, at) ==> MovedAnchor(at, r, n) > 0 && MovedUnit(at - 1, r, n) == Some(MovedAnchor(at, r, n) - 1)
  {
  }

  lemma MovedUnitIsSame(text: string, r: Range, t: string, p: nat)
    requires Within(r, text) && p < |text| && MovedUnit(p, r, |t|).Some?
    ensures var q := MovedUnit(p, r, |t|).value; q < |Replaced(text, r, t)| && Replaced(text, r, t)[q] == text[p]
  {
    var q := MovedUnit(p, r, |t|).value;
    if p < r.start {
      assert Replaced(text, r, t)[q] == text[..r.start][p];
    } else {
      assert Replaced(text, r, t)[q] == text[r.end..][p - r.end];
    }
  }

  /** A caret anchor is carried along by changes, and stays a caret inside the text. */
  lemma {:induction false} AnchorIsCarried(text: string, places: seq<Range>, t: string, anchors: map<nat, Range>, id: nat)
    requires Fit(text, places, t) && id in anchors && IsCaret(anchors[id]) && anchors[id].start <= |text|
    ensures var carried := CarriedAll(anchors, places, |t|);
            id in carried && IsCaret(carried[id]) && carried[id].start <= |Overwritten(text, places, t)|
    decreases |places|
  {
    if places != [] {
      AnchorIsCarried(Replaced(text, places[0], t), places[1..], t, Carried(anchors, places[0], |t|), id);
    }
  }

  /** Over all changes of a happening: they spare the unit before the anchor exactly when it is still
      somewhere, and then it is the same unit and before the anchor again. */
  lemma {:induction false} SparedUnitIsCarried(text: string, places: seq<Range>, t: string, anchors: map<nat, Range>, id: nat)
    requires Fit(text, places, t) && id in anchors && IsCaret(anchors[id]) && 0 < anchors[id].start <= |text|
    ensures var at := anchors[id].start;
            var carried := CarriedAll(anchors, places, |t|);
            var unit := MovedUnitAll(at - 1, places, |t|);
            && (SparesAll(places, |t|, at) <==> unit.Some?)
            && (unit.Some? ==>
                  && id in carried && carried[id].start == unit.value + 1
                  && unit.value < |Overwritten(text, places, t)| && Overwritten(text, places, t)[unit.value] == text[at - 1])
    decreases |places|
  {
    if places != [] {
      var at := anchors[id].start;
      SparedUnitMoves(places[0], |t|, at);
      if Spares(places[0], at) {
        MovedUnitIsSame(text, places[0], t, at - 1);
        SparedUnitIsCarried(Replaced(text, places[0], t), places[1..], t, Carried(anchors, places[0], |t|), id);
      }
    }
  }

  lemma {:induction false} LastWriteEnds(text: string, places: seq<Range>, t: string)
    requires Fit(text, places, t) && places != []
    ensures var end := places[|places| - 1].start + |t|;
            end <= |Overwritten(text, places, t)| && (t != [] ==> Overwritten(text, places, t)[end - 1] == t[|t| - 1])
    decreases |places|
  {
    if |places| > 1 {
      LastWriteEnds(Replaced(text, places[0], t), places[1..], t);
    } else {
      assert Overwritten(text, places, t) == Replaced(text, places[0], t);
    }
  }

  // ---------------------------------------------------------------- every run

  /** The window, if open, belongs to the commit; its anchor is a caret; and the last unit of the commit's
      text, as long as it is anywhere, stands before that anchor. */
  predicate Tracks(w: World, commit: Option<Happening>, unit: Option<nat>, spared: bool) {
    w.learning.anchor.Some? ==>
      && commit.Some? && commit.value.Commits?
      && w.learning.armed.Some? && w.learning.armed.value.token == commit.value.token
      && w.learning.anchor.value in w.anchors
      && Placed(w.session.host.text, w.anchors[w.learning.anchor.value], commit.value.text, unit, spared)
  }

  predicate Placed(text: string, anchor: Range, committed: string, unit: Option<nat>, spared: bool) {
    && IsCaret(anchor) && anchor.start <= |text|
    && (unit.Some? <==> committed != [] && spared)
    && (unit.Some? ==> unit.value + 1 == anchor.start && text[unit.value] == committed[|committed| - 1])
  }

  /** What a happening that does not arm does to the unit and to whether it was spared. */
  lemma ChangesTrack(w: World, x: Happening, t: string, commit: Happening, unit: Option<nat>, spared: bool)
    requires w.session.Valid() && w.learning.anchor.Some? && w.learning.anchor.value in w.anchors && commit.Commits?
    requires Placed(w.session.host.text, w.anchors[w.learning.anchor.value], commit.text, unit, spared)
    requires var changes := ChangesBy(w, x);
             && Fit(w.session.host.text, changes.places, t) && changes.length == |t|
             && Step(w, x).session.host.text == Overwritten(w.session.host.text, changes.places, t)
             && Step(w, x).anchors == CarriedAll(w.anchors, changes.places, |t|)
    ensures var id := w.learning.anchor.value;
            var changes := ChangesBy(w, x);
            && id in Step(w, x).anchors
            && Placed(Step(w, x).session.host.text, Step(w, x).anchors[id], commit.text,
                      if unit.Some? then MovedUnitAll(unit.value, changes.places, changes.length) else None,
                      spared && SparesAll(changes.places, changes.length, w.anchors[id].start))
  {
    var id := w.learning.anchor.value;
    AnchorIsCarried(w.session.host.text, ChangesBy(w, x).places, t, w.anchors, id);
    if unit.Some? {
      SparedUnitIsCarried(w.session.host.text, ChangesBy(w, x).places, t, w.anchors, id);
    }
  }

  lemma ArmingTracks(w: World, x: Happening)
    requires w.session.Valid() && Arms(w, x)
    ensures Tracks(Step(w, x), Some(x), UnitNow(w, x, None), true)
  {
    var places := Places(w.session, x.text, x.faults);
    CommitWritesPlaces(w.session, x.text, x.faults);
    LastWriteEnds(w.session.host.text, places, x.text);
  }

  lemma UnarmedTracks(w: World, x: Happening, commit: Option<Happening>, unit: Option<nat>, spared: bool)
    requires w.session.Valid() && !Arms(w, x) && Tracks(w, commit, unit, spared)
    ensures Tracks(Step(w, x), commit, UnitNow(w, x, unit), spared && SparesNow(w, x))
  {
    if Step(w, x).learning.anchor.Some? {
      var text := if x.Commits? || x.Edits? then x.text else [];
      if x.Commits? {
        CommitWritesPlaces(w.session, x.text, x.faults);
      }
      ChangesTrack(w, x, text, commit.value, unit, spared);
    }
  }

  lemma {:induction false} RunTracks(w: World, happenings: seq<Happening>)
    requires w.session.Valid() && w.learning == Rollback.FRESH
    ensures Tracks(After(w, happenings), LastArming(w, happenings), UnitAfter(w, happenings), SparedSince(w, happenings))
  {
    if happenings != [] {
      var front, x := happenings[..|happenings| - 1], happenings[|happenings| - 1];
      RunTracks(w, front);
      if Arms(After(w, front), x) {
        ArmingTracks(After(w, front), x);
      } else {
        UnarmedTracks(After(w, front), x, LastArming(w, front), UnitAfter(w, front), SparedSince(w, front));
      }
    }
  }

  /** The token that a Backspace sends, if any. */
  function TokenOf(w: World, x: Happening): Option<nat>
    requires x.Backspaces?
  {
    Rollback.Sends(w.learning, Rollback.GuardedBackspace(x.identity, x.at, Seen(w.session.host, w.anchors, x.failing)))
  }

  lemma DeletesBefore(h: Host, anchor: Option<Range>, faults: set<DeletionCall>)
    requires h.Valid() && Delete(h, anchor, faults).1 == Deleted(true)
    ensures 0 < h.selection.start && IsCaret(h.selection) && anchor == Some(h.selection)
    ensures var out := Delete(h, anchor, faults).0;
            && out.text == h.text[..h.selection.start - 1] + h.text[h.selection.start..]
            && out.selection == Caret(h.selection.start - 1)
  {
    var at := h.selection.start;
    assert h.text[..at - 1] + [] + h.text[at..] == h.text[..at - 1] + h.text[at..];
  }

  /** Over any run of commits under failing calls, edits, caret moves, Backspaces and notifications, a
      Backspace that sends a token sends that of the commit that armed last and deletes the unit before the
      caret. That unit is the last one of the commit's own text exactly when that text was not empty and every
      change since spared it. */
  lemma TokenTakesBackItsCommit(w: World, happenings: seq<Happening>, last: Happening)
    requires w.session.Valid() && w.learning == Rollback.FRESH
    requires last.Backspaces? && TokenOf(After(w, happenings), last).Some?
    ensures var commit := LastArming(w, happenings);
            var h := After(w, happenings).session.host;
            var out := Step(After(w, happenings), last).session.host;
            var at := h.selection.start;
            && commit.Some? && TokenOf(After(w, happenings), last) == Some(commit.value.token)
            && IsCaret(h.selection) && 0 < at <= |h.text|
            && out.text == h.text[..at - 1] + h.text[at..] && out.selection == Caret(at - 1)
            && (UnitAfter(w, happenings) == Some(at - 1) <==> commit.value.text != [] && SparedSince(w, happenings))
            && (UnitAfter(w, happenings) == Some(at - 1) ==> h.text[at - 1] == commit.value.text[|commit.value.text| - 1])
  {
    var now := After(w, happenings);
    var h := now.session.host;
    RunTracks(w, happenings);
    DeletionIsSeen(h, now.anchors, now.learning.anchor, last.failing);
    DeletesBefore(h, Saved(now.anchors, now.learning.anchor), last.failing);
  }

  // ---------------------------------------------------------------- the units it takes instead

  /** A change that reaches the unit, while the window is open and the caret stands at the saved anchor, carries
      both along. The Backspace still sends the token unless they are carried to the front of the text; it then
      deletes the end of what was written, if the change ended at the caret, and otherwise an older unit in
      front of the change. */
  lemma UnsparedChangeIsTakenInstead(w: World, range: Range, text: string, at: nat)
    requires w.session.Valid() && w.learning.anchor.Some? && w.learning.armed.Some? && at < w.learning.armed.value.deadline
    requires Saved(w.anchors, w.learning.anchor) == Some(w.session.host.selection) && IsCaret(w.session.host.selection)
    requires Within(range, w.session.host.text) && !Spares(range, w.session.host.selection.start)
    ensures var now := Step(w, Edits(range, text));
            var h := now.session.host;
            var to := if range.end == w.session.host.selection.start then range.start + |text| else range.start;
            && h.selection == Caret(to)
            && TokenOf(now, Backspaces(Some(w.learning.armed.value.context), at, {}))
               == (if to > 0 then Some(w.learning.armed.value.token) else None)
            && (to > 0 ==> h.text[to - 1] == if to > range.start then text[|text| - 1] else w.session.host.text[range.start - 1])
  {
    var h := w.session.host;
    var now := Step(w, Edits(range, text));
    var to := now.session.host.selection.start;
    assert now.session.host.text == Replaced(h.text, range, text);
    if to > range.start {
      assert Replaced(h.text, range, text)[to - 1] == text[|text| - 1];
    } else if to > 0 {
      assert Replaced(h.text, range, text)[to - 1] == h.text[..range.start][to - 1];
    }
    var id := w.learning.anchor.value;
    assert now.anchors[id] == Caret(to) == now.session.host.selection;
    assert id in Seen(now.session.host, now.anchors, {}).standsAt;
  }

  /** A commit of the empty text arms as well: a Backspace after it deletes what stood there before, and sends
      its token. */
  lemma EmptyCommitTakesOlderUnit(w: World, token: nat, context: nat, anchor: nat, now: nat, at: nat)
    requires w.session.Valid() && w.session.slot == None && IsCaret(w.session.host.selection) && 0 < w.session.host.selection.start
    requires at < Rollback.Deadline(now)
    ensures var after := Step(w, Commits([], token, Some(context), Some(anchor), now, {}));
            && after.session.host.text == w.session.host.text && after.session.host.selection == w.session.host.selection
            && TokenOf(after, Backspaces(Some(context), at, {})) == Some(token)
  {
    var h := w.session.host;
    var p := h.selection.start;
    var x := Commits([], token, Some(context), Some(anchor), now, {});
    var after := Step(w, x);
    assert h.text[..p] + [] + h.text[p..] == h.text;
    assert Places(w.session, [], {}) == [h.selection];
    assert after.anchors[anchor] == Caret(p);
    assert anchor in Seen(after.session.host, after.anchors, {}).standsAt;
  }
}
