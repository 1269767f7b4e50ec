/** Projection of a candidate's syllable breaks onto the raw input: `project_separators`. */
module Separators {

  const APOSTROPHE: char := '\''

  predicate IsSeparator(c: char) {
    c == '\'' || c == '\U{2019}' || c == '\U{2018}' || c == ' ' || c == '\t'
  }

  predicate LettersOnly(s: string) {
    forall c :: c in s ==> !IsSeparator(c)
  }

  /** The annotation without its separators. */
  function Letters(s: string): string {
    if s == "" then ""
    else Letters(s[..|s| - 1]) + if IsSeparator(s[|s| - 1]) then "" else [s[|s| - 1]]
  }

  // ---------------------------------------------------------------- what the loop computes

  /** The greedy counter after scanning `annotation`. */
  function Matched(raw: string, annotation: string): (m: nat)
    ensures m <= |raw|
  {
    if annotation == "" then 0
    else
      var m := Matched(raw, annotation[..|annotation| - 1]);
      var c := annotation[|annotation| - 1];
      if !IsSeparator(c) && m < |raw| && raw[m] == c then m + 1 else m
  }

  /** The break positions in the order they are recorded. */
  function Breaks(raw: string, annotation: string): seq<nat> {
    if annotation == "" then []
    else
      var before := annotation[..|annotation| - 1];
      var m := Matched(raw, before);
      Breaks(raw, before)
      + if IsSeparator(annotation[|annotation| - 1]) && 0 < m < |raw| then [m] else []
  }

  /** The first `n` characters of `raw` with an apostrophe before every index in `breaks`. */
  function Insert(raw: string, breaks: seq<nat>, n: nat): string
    requires n <= |raw|
  {
    if n == 0 then ""
    else Insert(raw, breaks, n - 1) + (if n - 1 in breaks then [APOSTROPHE] else "") + [raw[n - 1]]
  }

  function Project(raw: string, annotation: string): string {
    Insert(raw, Breaks(raw, annotation), |raw|)
  }

  // ---------------------------------------------------------------- the algorithm

  predicate Sorted(s: seq<nat>) {
    forall i, j :: 0 <= i < j < |s| ==> s[i] <= s[j]
  }

  predicate StrictlySorted(s: seq<nat>) {
    forall i, j :: 0 <= i < j < |s| ==> s[i] < s[j]
  }

  /** `Vec::dedup`: drop every element equal to the one before it. */
  function Dedup(s: seq<nat>): seq<nat> {
    if |s| <= 1 then s
    else
      var front := Dedup(s[..|s| - 1]);
      if s[|s| - 1] == s[|s| - 2] then front else front + [s[|s| - 1]]
  }

  lemma {:induction false} DedupSorted(s: seq<nat>)
    requires Sorted(s)
    ensures StrictlySorted(Dedup(s))
    ensures forall x :: x in Dedup(s) <==> x in s
    ensures s != [] ==> Dedup(s) != [] && Dedup(s)[|Dedup(s)| - 1] == s[|s| - 1]
  {
    if |s| > 1 {
      var front, last := s[..|s| - 1], s[|s| - 1];
      DedupSorted(front);
      assert s == front + [last];
      var d := Dedup(front);
      assert front[|front| - 1] == s[|s| - 2] == d[|d| - 1] <= last;
      if s[|s| - 2] != last {
        assert forall i :: 0 <= i < |d| ==> d[i] <= d[|d| - 1] < last;
      } else {
        assert last in d;
      }
    }
  }

  lemma SortedSnoc(s: seq<nat>, last: nat)
    requires Sorted(s) && forall x :: x in s ==> x <= last
    ensures Sorted(s + [last])
  {
    assert forall i :: 0 <= i < |s| ==> s[i] in s;
  }

  /** The list is recorded in order, so sorting it changes nothing. */
  lemma {:induction false} BreaksAreSorted(raw: string, annotation: string)
    ensures Sorted(Breaks(raw, annotation))
    ensures forall p :: p in Breaks(raw, annotation) ==> 0 < p < |raw| && p <= Matched(raw, annotation)
  {
    if annotation != "" {
      var before := annotation[..|annotation| - 1];
      BreaksAreSorted(raw, before);
      SortedSnoc(Breaks(raw, before), Matched(raw, before));
    }
  }

  lemma DedupedBreaks(raw: string, annotation: string)
    ensures var breaks := Breaks(raw, annotation);
            StrictlySorted(Dedup(breaks)) && forall x :: x in Dedup(breaks) <==> x in breaks
  {
    BreaksAreSorted(raw, annotation);
    DedupSorted(Breaks(raw, annotation));
  }

  /** `project_separators`. `sort_unstable` is the identity here because the list is already sorted,
      and on the strictly sorted list left by `dedup` a binary search succeeds exactly for members. */
  method ProjectSeparators(raw: string, annotation: string) returns (result: string)
    ensures result == Project(raw, annotation)
  {
    var matched := 0;
    var separators: seq<nat> := [];
    for i := 0 to |annotation|
      invariant matched == Matched(raw, annotation[..i])
      invariant separators == Breaks(raw, annotation[..i])
    {
      assert annotation[..i + 1][..i] == annotation[..i];
      var character := annotation[i];
      if IsSeparator(character) {
        if matched > 0 && matched < |raw| {
          separators := separators + [matched];
        }
      } else if matched < |raw| && raw[matched] == character {
        matched := matched + 1;
      }
    }
    assert annotation[..|annotation|] == annotation;
    DedupedBreaks(raw, annotation);
    separators := Dedup(separators);
    result := "";
    for index := 0 to |raw|
      invariant result == Insert(raw, Breaks(raw, annotation), index)
    {
      if index in separators {
        result := result + [APOSTROPHE];
      }
      result := result + [raw[index]];
    }
  }

  // ---------------------------------------------------------------- what the breaks mean

  /** `u` can be obtained from `v` by deleting characters. */
  predicate Subsequence(u: string, v: string) {
    u == "" ||
    (v != "" &&
     ((u[|u| - 1] == v[|v| - 1] && Subsequence(u[..|u| - 1], v[..|v| - 1])) ||
      Subsequence(u, v[..|v| - 1])))
  }

  /** `p` is the length of the longest prefix of `raw` embeddable in `letters`. */
  ghost predicate IsLongestEmbeddable(raw: string, letters: string, p: nat) {
    && p <= |raw|
    && Subsequence(raw[..p], letters)
    && forall q :: p < q <= |raw| ==> !Subsequence(raw[..q], letters)
  }

  /** The greedy counter embeds a prefix of `raw` exactly when some embedding exists at all. */
  lemma {:induction false} GreedyIsOptimal(raw: string, annotation: string, p: nat)
    requires p <= |raw|
    ensures Subsequence(raw[..p], Letters(annotation)) <==> p <= Matched(raw, annotation)
  {
    if annotation != "" && p > 0 {
      var before := annotation[..|annotation| - 1];
      var c := annotation[|annotation| - 1];
      GreedyIsOptimal(raw, before, p);
      if IsSeparator(c) {
        assert Letters(annotation) == Letters(before);
      } else {
        GreedyIsOptimal(raw, before, p - 1);
        assert Letters(annotation) == Letters(before) + [c];
        GreedyStep(raw, before, c, p);
      }
    }
  }

  lemma GreedyStep(raw: string, before: string, c: char, p: nat)
    requires 0 < p <= |raw| && !IsSeparator(c)
    requires Subsequence(raw[..p], Letters(before)) <==> p <= Matched(raw, before)
    requires Subsequence(raw[..p - 1], Letters(before)) <==> p - 1 <= Matched(raw, before)
    ensures Subsequence(raw[..p], Letters(before) + [c])
        <==> p <= if Matched(raw, before) < |raw| && raw[Matched(raw, before)] == c then Matched(raw, before) + 1
                  else Matched(raw, before)
  {
    SubsequenceSnoc(raw[..p], Letters(before), c);
    assert raw[..p][..p - 1] == raw[..p - 1];
  }

  lemma SubsequenceSnoc(u: string, v: string, c: char)
    requires u != ""
    ensures Subsequence(u, v + [c]) <==> (u[|u| - 1] == c && Subsequence(u[..|u| - 1], v)) || Subsequence(u, v)
  {
    assert (v + [c])[..|v|] == v;
  }

  lemma MatchedIsLongest(raw: string, annotation: string)
    ensures IsLongestEmbeddable(raw, Letters(annotation), Matched(raw, annotation))
  {
    forall q | 0 <= q <= |raw|
      ensures Subsequence(raw[..q], Letters(annotation)) <==> q <= Matched(raw, annotation)
    {
      GreedyIsOptimal(raw, annotation, q);
    }
  }

  lemma LongestIsUnique(raw: string, letters: string, p: nat, q: nat)
    requires IsLongestEmbeddable(raw, letters, p) && IsLongestEmbeddable(raw, letters, q)
    ensures p == q
  {
  }

  lemma {:induction false} BreaksFromPrefixes(raw: string, annotation: string, p: nat)
    ensures p in Breaks(raw, annotation) <==>
              0 < p < |raw| &&
              exists i :: 0 <= i < |annotation| && IsSeparator(annotation[i]) && Matched(raw, annotation[..i]) == p
  {
    if annotation != "" {
      var n := |annotation| - 1;
      var before := annotation[..n];
      BreaksFromPrefixes(raw, before, p);
      forall i | 0 <= i < n ensures before[..i] == annotation[..i] && before[i] == annotation[i] { }
      if 0 < p < |raw| && IsSeparator(annotation[n]) && Matched(raw, before) == p {
        assert annotation[..n] == before;
      }
    }
  }

  /** Where the apostrophes go: before raw index `p` exactly when `p` is inside `raw` and some
      separator of the annotation follows letters whose longest embeddable prefix of `raw` has length
      exactly `p`. */
  lemma BreakCharacterization(raw: string, annotation: string, p: nat)
    ensures p in Breaks(raw, annotation) <==>
              0 < p < |raw| &&
              exists i :: 0 <= i < |annotation| && IsSeparator(annotation[i])
                       && IsLongestEmbeddable(raw, Letters(annotation[..i]), p)
  {
    BreaksFromPrefixes(raw, annotation, p);
    forall i | 0 <= i < |annotation|
      ensures IsLongestEmbeddable(raw, Letters(annotation[..i]), p) <==> Matched(raw, annotation[..i]) == p
    {
      MatchedIsLongest(raw, annotation[..i]);
      if IsLongestEmbeddable(raw, Letters(annotation[..i]), p) {
        LongestIsUnique(raw, Letters(annotation[..i]), p, Matched(raw, annotation[..i]));
      }
    }
  }

  // ---------------------------------------------------------------- the projected text

  function WithoutApostrophes(s: string): string {
    if s == "" then ""
    else WithoutApostrophes(s[..|s| - 1]) + if s[|s| - 1] == APOSTROPHE then "" else [s[|s| - 1]]
  }

  lemma WithoutApostrophesSnoc(s: string, c: char)
    ensures WithoutApostrophes(s + [c]) == WithoutApostrophes(s) + if c == APOSTROPHE then "" else [c]
  {
    assert (s + [c])[..|s|] == s;
  }

  lemma {:induction false} InsertKeepsRaw(raw: string, breaks: seq<nat>, n: nat)
    requires n <= |raw|
    ensures WithoutApostrophes(Insert(raw, breaks, n)) == WithoutApostrophes(raw[..n])
  {
    if n > 0 {
      InsertKeepsRaw(raw, breaks, n - 1);
      var before := Insert(raw, breaks, n - 1);
      WithoutApostrophesSnoc(raw[..n - 1], raw[n - 1]);
      assert raw[..n] == raw[..n - 1] + [raw[n - 1]];
      if n - 1 in breaks {
        WithoutApostrophesSnoc(before, APOSTROPHE);
        WithoutApostrophesSnoc(before + [APOSTROPHE], raw[n - 1]);
      } else {
        assert before + "" + [raw[n - 1]] == before + [raw[n - 1]];
        WithoutApostrophesSnoc(before, raw[n - 1]);
      }
    }
  }

  /** Whatever was typed, apostrophes among it or not, nothing but apostrophes is added and nothing is lost. */
  lemma ProjectKeepsRaw(raw: string, annotation: string)
    ensures WithoutApostrophes(Project(raw, annotation)) == WithoutApostrophes(raw)
    ensures APOSTROPHE !in raw ==> WithoutApostrophes(Project(raw, annotation)) == raw
  {
    InsertKeepsRaw(raw, Breaks(raw, annotation), |raw|);
    assert raw[..|raw|] == raw;
    if APOSTROPHE !in raw {
      WithoutNone(raw);
    }
  }

  lemma {:induction false} WithoutNone(s: string)
    requires APOSTROPHE !in s
    ensures WithoutApostrophes(s) == s
  {
    if s != "" {
      WithoutNone(s[..|s| - 1]);
      assert s[|s| - 1] in s;
      assert s == s[..|s| - 1] + [s[|s| - 1]];
    }
  }

  /** No apostrophe leads, trails or is doubled. */
  ghost predicate WellSeparated(s: string) {
    (s != "" ==> s[0] != APOSTROPHE && s[|s| - 1] != APOSTROPHE) && !Doubled(s)
  }

  ghost predicate Doubled(s: string) {
    exists i :: 0 < i < |s| && s[i - 1] == APOSTROPHE && s[i] == APOSTROPHE
  }

  /** An apostrophe before index `p` would stand beside a typed one. */
  predicate Beside(raw: string, p: nat)
    requires 0 < p < |raw|
  {
    raw[p - 1] == APOSTROPHE || raw[p] == APOSTROPHE
  }

  lemma DoubledSnoc(s: string, c: char)
    ensures Doubled(s + [c]) <==> Doubled(s) || (s != "" && s[|s| - 1] == APOSTROPHE && c == APOSTROPHE)
  {
    var t := s + [c];
    if Doubled(s) {
      var i :| 0 < i < |s| && s[i - 1] == APOSTROPHE && s[i] == APOSTROPHE;
      assert t[i - 1] == APOSTROPHE && t[i] == APOSTROPHE;
    }
    if s != "" {
      assert t[|s| - 1] == s[|s| - 1] && t[|s|] == c;
    }
  }

  lemma {:induction false} InsertDoubles(raw: string, breaks: seq<nat>, n: nat)
    requires n <= |raw| && forall p :: p in breaks ==> 0 < p < |raw|
    ensures n > 0 ==> var s := Insert(raw, breaks, n); s != "" && s[0] == raw[0] && s[|s| - 1] == raw[n - 1]
    ensures Doubled(Insert(raw, breaks, n)) <==> Doubled(raw[..n]) || exists p :: p in breaks && p < n && Beside(raw, p)
  {
    if n > 0 {
      InsertDoubles(raw, breaks, n - 1);
      var before := Insert(raw, breaks, n - 1);
      assert raw[..n] == raw[..n - 1] + [raw[n - 1]];
      DoubledSnoc(raw[..n - 1], raw[n - 1]);
      if n - 1 in breaks {
        DoubledSnoc(before, APOSTROPHE);
        DoubledSnoc(before + [APOSTROPHE], raw[n - 1]);
        assert Beside(raw, n - 1) <==> before[|before| - 1] == APOSTROPHE || raw[n - 1] == APOSTROPHE;
      } else {
        assert before + "" + [raw[n - 1]] == before + [raw[n - 1]];
        DoubledSnoc(before, raw[n - 1]);
      }
    }
  }

  /** The first typed apostrophe. */
  predicate FirstApostrophe(raw: string, q: nat) {
    q < |raw| && raw[q] == APOSTROPHE && APOSTROPHE !in raw[..q]
  }

  /** No letter of an annotation matches a typed apostrophe: the counter stays before the first one. */
  lemma {:induction false} MatchedStaysBefore(raw: string, annotation: string, q: nat)
    requires FirstApostrophe(raw, q)
    ensures Matched(raw, annotation) <= q
  {
    if annotation != "" {
      MatchedStaysBefore(raw, annotation[..|annotation| - 1], q);
    }
  }

  /** A separator of the annotation follows letters in which everything typed before index `q` can be found. */
  ghost predicate SeparatesAt(raw: string, annotation: string, q: nat)
    requires q <= |raw|
  {
    exists i :: 0 <= i < |annotation| && IsSeparator(annotation[i]) && Subsequence(raw[..q], Letters(annotation[..i]))
  }

  /** An inserted apostrophe stands beside a typed one exactly when something was typed before the first
      typed apostrophe and the annotation has a separator after all of that. */
  lemma BesideTyped(raw: string, annotation: string, q: nat)
    requires FirstApostrophe(raw, q)
    ensures (exists p :: p in Breaks(raw, annotation) && 0 < p < |raw| && Beside(raw, p)) <==> 0 < q && SeparatesAt(raw, annotation, q)
  {
    forall i | 0 <= i < |annotation|
      ensures Subsequence(raw[..q], Letters(annotation[..i])) <==> Matched(raw, annotation[..i]) == q
    {
      GreedyIsOptimal(raw, annotation[..i], q);
      MatchedStaysBefore(raw, annotation[..i], q);
    }
    BreaksFromPrefixes(raw, annotation, q);
    forall p | p in Breaks(raw, annotation) && 0 < p < |raw|
      ensures Beside(raw, p) <==> p == q
    {
      BreaksAreSorted(raw, annotation);
      MatchedStaysBefore(raw, annotation, q);
      assert raw[p - 1] == raw[..q][p - 1] && (p < q ==> raw[p] == raw[..q][p]);
    }
  }

  /** Without a typed apostrophe the result is always well separated. With one it is exactly when the input
      was, and the annotation has no separator after all that was typed before the first. */
  lemma ProjectWellSeparated(raw: string, annotation: string)
    ensures APOSTROPHE !in raw ==> WellSeparated(Project(raw, annotation))
    ensures forall q :: FirstApostrophe(raw, q) ==>
              (WellSeparated(Project(raw, annotation)) <==> WellSeparated(raw) && !SeparatesAt(raw, annotation, q))
  {
    BreaksAreSorted(raw, annotation);
    InsertDoubles(raw, Breaks(raw, annotation), |raw|);
    assert raw[..|raw|] == raw;
    forall q | FirstApostrophe(raw, q)
      ensures WellSeparated(Project(raw, annotation)) <==> WellSeparated(raw) && !SeparatesAt(raw, annotation, q)
    {
      BesideTyped(raw, annotation, q);
    }
    if APOSTROPHE !in raw {
      assert forall i :: 0 <= i < |raw| ==> raw[i] in raw;
    }
  }

  // ---------------------------------------------------------------- scanning a separated raw

  /** `raw[..n]` with one accepted separator, `mark(p)`, before every index `p` in `breaks`. */
  function InsertMarks(raw: string, breaks: seq<nat>, mark: nat -> char, n: nat): string
    requires n <= |raw|
  {
    if n == 0 then ""
    else InsertMarks(raw, breaks, mark, n - 1) + (if n - 1 in breaks then [mark(n - 1)] else "") + [raw[n - 1]]
  }

  lemma ScanSeparator(raw: string, annotation: string, c: char)
    requires IsSeparator(c)
    ensures Matched(raw, annotation + [c]) == Matched(raw, annotation)
    ensures Breaks(raw, annotation + [c]) == Breaks(raw, annotation)
              + if 0 < Matched(raw, annotation) < |raw| then [Matched(raw, annotation)] else []
  {
    assert (annotation + [c])[..|annotation|] == annotation;
  }

  lemma ScanLetter(raw: string, annotation: string, c: char)
    requires !IsSeparator(c)
    ensures Breaks(raw, annotation + [c]) == Breaks(raw, annotation)
    ensures Matched(raw, annotation + [c]) == Matched(raw, annotation)
              + if Matched(raw, annotation) < |raw| && raw[Matched(raw, annotation)] == c then 1 else 0
  {
    assert (annotation + [c])[..|annotation|] == annotation;
  }

  /** The annotation matches the first `n` characters and records the breaks before them. */
  ghost predicate Scanned(raw: string, annotation: string, breaks: seq<nat>, n: nat) {
    Matched(raw, annotation) == n && forall p :: p in Breaks(raw, annotation) <==> p in breaks && p < n
  }

  /** A mark and the letter after it. */
  lemma MarkIsScanned(raw: string, before: string, breaks: seq<nat>, c: char, m: nat)
    requires 0 < m < |raw| && Scanned(raw, before, breaks, m) && IsSeparator(c) && !IsSeparator(raw[m]) && m in breaks
    ensures Scanned(raw, before + [c] + [raw[m]], breaks, m + 1)
  {
    ScanSeparator(raw, before, c);
    ScanLetter(raw, before + [c], raw[m]);
  }

  lemma LetterIsScanned(raw: string, before: string, breaks: seq<nat>, m: nat)
    requires m < |raw| && Scanned(raw, before, breaks, m) && !IsSeparator(raw[m]) && m !in breaks
    ensures Scanned(raw, before + [raw[m]], breaks, m + 1)
  {
    ScanLetter(raw, before, raw[m]);
  }

  lemma {:induction false} ScanMarked(raw: string, breaks: seq<nat>, mark: nat -> char, n: nat)
    requires n <= |raw| && LettersOnly(raw[..n])
    requires forall p :: p in breaks ==> 0 < p < |raw| && IsSeparator(mark(p))
    ensures Scanned(raw, InsertMarks(raw, breaks, mark, n), breaks, n)
  {
    if n > 0 {
      assert raw[..n] == raw[..n - 1] + [raw[n - 1]];
      ScanMarked(raw, breaks, mark, n - 1);
      var before := InsertMarks(raw, breaks, mark, n - 1);
      assert raw[n - 1] in raw[..n];
      if n - 1 in breaks {
        MarkIsScanned(raw, before, breaks, mark(n - 1), n - 1);
      } else {
        LetterIsScanned(raw, before, breaks, n - 1);
        assert before + "" + [raw[n - 1]] == before + [raw[n - 1]];
      }
    }
  }

  lemma {:induction false} InsertDependsOnMembers(raw: string, a: seq<nat>, b: seq<nat>, n: nat)
    requires n <= |raw|
    requires forall p :: p < n ==> (p in a <==> p in b)
    ensures Insert(raw, a, n) == Insert(raw, b, n)
  {
    if n > 0 {
      InsertDependsOnMembers(raw, a, b, n - 1);
    }
  }

  /** Marks of any accepted kind, placed anywhere inside a letters-only raw input, are projected to
      apostrophes in exactly the same places. */
  lemma MarksBecomeApostrophes(raw: string, breaks: seq<nat>, mark: nat -> char)
    requires LettersOnly(raw)
    requires forall p :: p in breaks ==> 0 < p < |raw| && IsSeparator(mark(p))
    ensures Project(raw, InsertMarks(raw, breaks, mark, |raw|)) == Insert(raw, breaks, |raw|)
  {
    assert raw[..|raw|] == raw;
    ScanMarked(raw, breaks, mark, |raw|);
    InsertDependsOnMembers(raw, Breaks(raw, InsertMarks(raw, breaks, mark, |raw|)), breaks, |raw|);
  }

  lemma {:induction false} ApostropheMarks(raw: string, breaks: seq<nat>, n: nat)
    requires n <= |raw|
    ensures InsertMarks(raw, breaks, _ => APOSTROPHE, n) == Insert(raw, breaks, n)
  {
    if n > 0 {
      ApostropheMarks(raw, breaks, n - 1);
    }
  }

  /** The first typed separator. */
  predicate FirstSeparator(raw: string, q: nat) {
    q < |raw| && IsSeparator(raw[q]) && LettersOnly(raw[..q])
  }

  /** No letter of an annotation matches a typed separator: the counter never passes the first one. */
  lemma {:induction false} MatchedStopsAtSeparator(raw: string, annotation: string, q: nat)
    requires FirstSeparator(raw, q)
    ensures Matched(raw, annotation) <= q
  {
    if annotation != "" {
      MatchedStopsAtSeparator(raw, annotation[..|annotation| - 1], q);
    }
  }

  /** A character scanned while the counter stands at a typed separator: a separator records that place. */
  lemma ScanAtSeparator(raw: string, annotation: string, c: char)
    requires Matched(raw, annotation) < |raw| && IsSeparator(raw[Matched(raw, annotation)])
    ensures Matched(raw, annotation + [c]) == Matched(raw, annotation)
    ensures Breaks(raw, annotation + [c])
         == Breaks(raw, annotation) + if IsSeparator(c) && 0 < Matched(raw, annotation) then [Matched(raw, annotation)] else []
  {
    if IsSeparator(c) {
      ScanSeparator(raw, annotation, c);
    } else {
      ScanLetter(raw, annotation, c);
    }
  }

  /** The break positions recorded after scanning an annotation, the counter standing at `q`. */
  ghost predicate RecordsAlso(raw: string, annotation: string, breaks: seq<nat>, q: nat) {
    Matched(raw, annotation) == q && forall p :: p in Breaks(raw, annotation) <==> p in breaks || (p == q && 0 < q)
  }

  lemma RecordsSeparator(raw: string, annotation: string, breaks: seq<nat>, q: nat)
    requires q < |raw| && IsSeparator(raw[q]) && Scanned(raw, annotation, breaks, q)
    requires forall p :: p in breaks ==> 0 < p <= q
    ensures RecordsAlso(raw, annotation + [raw[q]], breaks, q)
    ensures RecordsAlso(raw, annotation + [APOSTROPHE] + [raw[q]], breaks, q)
  {
    ScanAtSeparator(raw, annotation, raw[q]);
    ScanAtSeparator(raw, annotation, APOSTROPHE);
    ScanAtSeparator(raw, annotation + [APOSTROPHE], raw[q]);
  }

  lemma RecordsOn(raw: string, annotation: string, breaks: seq<nat>, q: nat, c: char)
    requires q < |raw| && IsSeparator(raw[q]) && RecordsAlso(raw, annotation, breaks, q)
    ensures RecordsAlso(raw, annotation + [c], breaks, q)
  {
    ScanAtSeparator(raw, annotation, c);
  }

  /** Scanning a projection past the first typed separator: that place is recorded whether or not it was. */
  lemma {:induction false} ScanPastSeparator(raw: string, breaks: seq<nat>, q: nat, n: nat)
    requires FirstSeparator(raw, q) && q < n <= |raw|
    requires forall p :: p in breaks ==> 0 < p <= q
    ensures RecordsAlso(raw, Insert(raw, breaks, n), breaks, q)
  {
    var before := Insert(raw, breaks, n - 1);
    if n - 1 == q {
      ApostropheMarks(raw, breaks, q);
      ScanMarked(raw, breaks, _ => APOSTROPHE, q);
      RecordsSeparator(raw, before, breaks, q);
    } else {
      ScanPastSeparator(raw, breaks, q, n - 1);
      RecordsOn(raw, before, breaks, q, raw[n - 1]);
    }
    assert Insert(raw, breaks, n) == if n - 1 in breaks then before + [APOSTROPHE] + [raw[n - 1]] else before + [raw[n - 1]];
  }

  lemma {:induction false} InsertOneMore(raw: string, some: seq<nat>, more: seq<nat>, q: nat, n: nat)
    requires n <= |raw| && q !in some
    requires forall p :: p in more <==> p in some || p == q
    ensures |Insert(raw, more, n)| == |Insert(raw, some, n)| + if q < n then 1 else 0
  {
    if n > 0 {
      InsertOneMore(raw, some, more, q, n - 1);
    }
  }

  /** Using the projection as the annotation gives the projection again: always for input without a typed
      separator, and otherwise exactly when the first one leads the input or already has an apostrophe inserted
      before it. */
  lemma ProjectIsIdempotent(raw: string, annotation: string)
    ensures LettersOnly(raw) ==> Project(raw, Project(raw, annotation)) == Project(raw, annotation)
    ensures forall q :: FirstSeparator(raw, q) ==>
              (Project(raw, Project(raw, annotation)) == Project(raw, annotation) <==> q == 0 || q in Breaks(raw, annotation))
  {
    var breaks := Breaks(raw, annotation);
    BreaksAreSorted(raw, annotation);
    if LettersOnly(raw) {
      ApostropheMarks(raw, breaks, |raw|);
      MarksBecomeApostrophes(raw, breaks, _ => APOSTROPHE);
    }
    forall q | FirstSeparator(raw, q)
      ensures Project(raw, Project(raw, annotation)) == Project(raw, annotation) <==> q == 0 || q in breaks
    {
      MatchedStopsAtSeparator(raw, annotation, q);
      ScanPastSeparator(raw, breaks, q, |raw|);
      var again := Breaks(raw, Project(raw, annotation));
      if q == 0 || q in breaks {
        InsertDependsOnMembers(raw, again, breaks, |raw|);
      } else {
        InsertOneMore(raw, breaks, again, q, |raw|);
      }
    }
  }

  /** For instance "a'b" without annotation: its projection is itself, and as an annotation doubles the
      apostrophe. */
  lemma IdempotenceExample()
    ensures var raw := ['a', APOSTROPHE, 'b']; Project(raw, Project(raw, "")) != Project(raw, "")
  {
    var raw := ['a', APOSTROPHE, 'b'];
    assert FirstSeparator(raw, 1);
    ProjectIsIdempotent(raw, "");
  }

  // ---------------------------------------------------------------- syllables

  function Concat(syllables: seq<string>): string {
    if syllables == [] then ""
    else Concat(syllables[..|syllables| - 1]) + syllables[|syllables| - 1]
  }

  /** The syllables with `marks[i]` between number `i` and number `i + 1`. */
  function Join(syllables: seq<string>, marks: seq<char>): string
    requires |marks| >= |syllables|
  {
    if syllables == [] then ""
    else
      var n := |syllables| - 1;
      if n == 0 then syllables[0]
      else Join(syllables[..n], marks) + [marks[n - 1]] + syllables[n]
  }

  /** The positions in `Concat(syllables)` where a new syllable starts. */
  function Cuts(syllables: seq<string>): seq<nat> {
    if |syllables| <= 1 then []
    else Cuts(syllables[..|syllables| - 1]) + [|Concat(syllables[..|syllables| - 1])|]
  }

  /** Scanning a word that continues the raw input consumes it whole. */
  lemma {:induction false} ScanWord(raw: string, annotation: string, word: string)
    requires LettersOnly(word)
    requires Matched(raw, annotation) + |word| <= |raw|
    requires raw[Matched(raw, annotation)..][..|word|] == word
    ensures Matched(raw, annotation + word) == Matched(raw, annotation) + |word|
    ensures Breaks(raw, annotation + word) == Breaks(raw, annotation)
  {
    if word == "" {
      assert annotation + word == annotation;
    } else {
      var n := |word| - 1;
      var m := Matched(raw, annotation);
      assert raw[m..][..n] == word[..n] by {
        assert raw[m..][..n] == raw[m..][..|word|][..n];
      }
      ScanWord(raw, annotation, word[..n]);
      assert annotation + word == (annotation + word[..n]) + [word[n]];
      assert raw[m + n] == raw[m..][..|word|][n] == word[n];
      assert word[n] in word;
      ScanLetter(raw, annotation + word[..n], word[n]);
    }
  }

  ghost predicate Pronounceable(syllables: seq<string>, marks: seq<char>) {
    && |marks| >= |syllables|
    && (forall w :: w in syllables ==> w != "" && LettersOnly(w))
    && (forall c :: c in marks ==> IsSeparator(c))
  }

  /** Inserting a word's letters with no break inside it. */
  lemma {:induction false} InsertWord(raw: string, breaks: seq<nat>, from: nat, word: string)
    requires from + |word| <= |raw| && raw[from..][..|word|] == word && word != ""
    requires forall p :: from < p < from + |word| ==> p !in breaks
    ensures Insert(raw, breaks, from + |word|)
         == Insert(raw, breaks, from) + (if from in breaks then [APOSTROPHE] else "") + word
  {
    var n := |word| - 1;
    assert raw[from + n] == raw[from..][..|word|][n] == word[n];
    if n == 0 {
      assert word == [word[0]];
    } else {
      assert raw[from..][..n] == raw[from..][..|word|][..n];
      InsertWord(raw, breaks, from, word[..n]);
      assert word == word[..n] + [word[n]];
      assert from + n !in breaks;
    }
  }

  /** At a typed apostrophe further letters are skipped. */
  lemma {:induction false} ScanStuck(raw: string, annotation: string, word: string)
    requires LettersOnly(word)
    requires Matched(raw, annotation) < |raw| && raw[Matched(raw, annotation)] == APOSTROPHE
    ensures Matched(raw, annotation + word) == Matched(raw, annotation)
    ensures Breaks(raw, annotation + word) == Breaks(raw, annotation)
  {
    if word == "" {
      assert annotation + word == annotation;
    } else {
      var n := |word| - 1;
      ScanStuck(raw, annotation, word[..n]);
      assert annotation + word == (annotation + word[..n]) + [word[n]];
      assert word[n] in word;
      ScanLetter(raw, annotation + word[..n], word[n]);
    }
  }

  lemma SpacedBreaks(raw: string, word: string, more: string)
    requires word != "" && LettersOnly(word) && LettersOnly(more)
    requires |word| < |raw| && raw[..|word|] == word && raw[|word|] == APOSTROPHE
    ensures Breaks(raw, word + [' '] + more) == [|word|]
  {
    assert raw[0..][..|word|] == word && "" + word == word;
    ScanWord(raw, "", word);
    ScanSeparator(raw, word, ' ');
    ScanStuck(raw, word + [' '], more);
  }

  lemma OneBreak(raw: string, breaks: seq<nat>, front: string, tail: string)
    requires raw == front + tail && front != "" && tail != "" && breaks == [|front|]
    ensures Insert(raw, breaks, |raw|) == front + [APOSTROPHE] + tail
  {
    assert forall p :: p in breaks ==> p == |front|;
    InsertNothing(raw, breaks, |front|);
    assert raw[..|front|] == front && raw[|front|..] == tail && tail[..|tail|] == tail;
    InsertWord(raw, breaks, |front|, tail);
  }

  /** A word typed with an apostrophe after it and annotated with a space there comes out with two. */
  lemma SpaceDoublesTyped(word: string, rest: string, more: string)
    requires word != "" && LettersOnly(word) && LettersOnly(more)
    ensures Project(word + ([APOSTROPHE] + rest), word + [' '] + more) == word + [APOSTROPHE] + ([APOSTROPHE] + rest)
  {
    var raw := word + ([APOSTROPHE] + rest);
    SpacedBreaks(raw, word, more);
    OneBreak(raw, Breaks(raw, word + [' '] + more), word, [APOSTROPHE] + rest);
  }

  lemma DoublingExample()
    ensures Project("ni" + ([APOSTROPHE] + "hao"), "ni" + [' '] + "hao") == "ni" + [APOSTROPHE] + ([APOSTROPHE] + "hao")
  {
    SpaceDoublesTyped("ni", "hao", "hao");
  }

  lemma {:induction false} LettersNeverBreak(raw: string, annotation: string)
    requires LettersOnly(annotation)
    ensures Breaks(raw, annotation) == []
  {
    if annotation != "" {
      var n := |annotation| - 1;
      assert annotation[n] in annotation;
      LettersNeverBreak(raw, annotation[..n]);
    }
  }

  lemma MarkBreaks(word: string, mark: char, more: string)
    requires word != "" && more != "" && LettersOnly(word) && LettersOnly(more) && IsSeparator(mark)
    ensures Breaks(word + more, word + [mark] + more) == [|word|]
  {
    var raw := word + more;
    assert raw[0..][..|word|] == word && "" + word == word;
    ScanWord(raw, "", word);
    ScanSeparator(raw, word, mark);
    assert raw[|word|..][..|more|] == more;
    ScanWord(raw, word + [mark], more);
  }

  /** The marks that separate syllables are the apostrophe, the two curly quotes, the space and the tab,
      and no other character. */
  lemma SeparatesExactly(word: string, mark: char, more: string)
    requires word != "" && more != "" && LettersOnly(word) && LettersOnly(more)
    ensures Project(word + more, word + [mark] + more)
         == if mark in {'\'', '\U{2018}', '\U{2019}', ' ', '\t'} then word + ['\''] + more else word + more
  {
    if IsSeparator(mark) {
      MarkBreaks(word, mark, more);
      OneBreak(word + more, Breaks(word + more, word + [mark] + more), word, more);
    } else {
      LettersNeverBreak(word + more, word + [mark] + more);
      InsertNothing(word + more, [], |word + more|);
    }
  }

  /** Scanning joined syllables that begin the raw input matches them all and breaks between them. */
  lemma {:induction false} ScanSyllables(raw: string, syllables: seq<string>, marks: seq<char>)
    requires Pronounceable(syllables, marks) && Concat(syllables) <= raw
    ensures Matched(raw, Join(syllables, marks)) == |Concat(syllables)|
    ensures Breaks(raw, Join(syllables, marks)) == Cuts(syllables)
    ensures syllables != [] ==> Concat(syllables) != ""
    ensures forall p :: p in Cuts(syllables) ==> p < |Concat(syllables)|
  {
    if syllables != [] {
      var n := |syllables| - 1;
      var front, word := syllables[..n], syllables[n];
      assert word in syllables && forall w :: w in front ==> w in syllables;
      assert Concat(front) <= Concat(syllables) <= raw;
      ScanSyllables(raw, front, marks);
      var from := |Concat(front)|;
      assert raw[from..][..|word|] == word;
      if n == 0 {
        ScanWord(raw, "", word);
        assert "" + word == word;
      } else {
        assert marks[n - 1] in marks;
        ScanSeparator(raw, Join(front, marks), marks[n - 1]);
        ScanWord(raw, Join(front, marks) + [marks[n - 1]], word);
      }
    }
  }

  /** The last syllable: where it starts is a cut, unless it is the only one. */
  lemma LastSyllable(raw: string, syllables: seq<string>, marks: seq<char>)
    requires syllables != [] && Pronounceable(syllables, marks) && Concat(syllables) <= raw
    ensures var n := |syllables| - 1;
            var front, word := syllables[..n], syllables[n];
            var from := |Concat(front)|;
            && word != "" && Pronounceable(front, marks) && Concat(front) <= raw
            && |Concat(syllables)| == from + |word| <= |raw|
            && raw[from..][..|word|] == word
            && (forall p :: p in Cuts(front) ==> p < from)
            && (forall p :: p in Cuts(syllables) <==> p in Cuts(front) || (n > 0 && p == from))
  {
    var n := |syllables| - 1;
    var front, word := syllables[..n], syllables[n];
    assert word in syllables && forall w :: w in front ==> w in syllables;
    assert Concat(front) <= Concat(syllables) <= raw;
    ScanSyllables(raw, front, marks);
  }

  /** Breaks that are the cuts of the syllables up to where they end. */
  ghost predicate CutAt(breaks: seq<nat>, syllables: seq<string>) {
    forall p :: p < |Concat(syllables)| ==> (p in breaks <==> p in Cuts(syllables))
  }

  lemma LastCut(raw: string, breaks: seq<nat>, syllables: seq<string>, marks: seq<char>)
    requires syllables != [] && Pronounceable(syllables, marks) && Concat(syllables) <= raw && CutAt(breaks, syllables)
    ensures var n := |syllables| - 1;
            var from := |Concat(syllables[..n])|;
            && CutAt(breaks, syllables[..n])
            && (from in breaks <==> n > 0)
            && forall p :: from < p < from + |syllables[n]| ==> p !in breaks
  {
    LastSyllable(raw, syllables, marks);
    if |syllables| == 1 {
      assert Cuts(syllables) == [];
    }
  }

  lemma {:induction false} InsertSyllables(raw: string, breaks: seq<nat>, syllables: seq<string>, marks: seq<char>)
    requires Pronounceable(syllables, marks) && Concat(syllables) <= raw
    requires forall c :: c in marks ==> c == APOSTROPHE
    requires CutAt(breaks, syllables)
    ensures Insert(raw, breaks, |Concat(syllables)|) == Join(syllables, marks)
  {
    if syllables != [] {
      var n := |syllables| - 1;
      LastSyllable(raw, syllables, marks);
      LastCut(raw, breaks, syllables, marks);
      InsertSyllables(raw, breaks, syllables[..n], marks);
      InsertWord(raw, breaks, |Concat(syllables[..n])|, syllables[n]);
      if n > 0 {
        assert marks[n - 1] in marks;
      }
    }
  }

  /** Syllables written with any accepted separators come out joined by apostrophes. */
  lemma SyllablesAreSeparated(syllables: seq<string>, marks: seq<char>, apostrophes: seq<char>)
    requires Pronounceable(syllables, marks)
    requires |apostrophes| == |marks| && forall c :: c in apostrophes ==> c == APOSTROPHE
    ensures Project(Concat(syllables), Join(syllables, marks)) == Join(syllables, apostrophes)
  {
    var raw := Concat(syllables);
    ScanSyllables(raw, syllables, marks);
    InsertSyllables(raw, Cuts(syllables), syllables, apostrophes);
  }

  // ---------------------------------------------------------------- projecting twice

  lemma {:induction false} InsertLength(raw: string, breaks: seq<nat>, n: nat)
    requires n <= |raw|
    ensures |Insert(raw, breaks, n)| >= n
    ensures (exists p :: p < n && p in breaks) ==> |Insert(raw, breaks, n)| > n
  {
    if n > 0 {
      InsertLength(raw, breaks, n - 1);
    }
  }

  lemma {:induction false} InsertNothing(raw: string, breaks: seq<nat>, n: nat)
    requires n <= |raw| && forall p :: p in breaks ==> p >= n
    ensures Insert(raw, breaks, n) == raw[..n]
  {
    if n > 0 {
      InsertNothing(raw, breaks, n - 1);
      assert raw[..n] == raw[..n - 1] + [raw[n - 1]];
    }
  }

  lemma {:induction false} InsertPrefix(raw: string, breaks: seq<nat>, m: nat, n: nat)
    requires m <= n <= |raw|
    ensures Insert(raw, breaks, m) <= Insert(raw, breaks, n)
    ensures m < n && m in breaks ==> Insert(raw, breaks, m) + [APOSTROPHE] <= Insert(raw, breaks, n)
  {
    if m < n {
      InsertPrefix(raw, breaks, m, n - 1);
    }
  }

  /** On a text whose first apostrophe sits at `p`, the counter is stuck at `p`. */
  lemma {:induction false} MatchedStopsAtApostrophe(raw: string, other: string, annotation: string, p: nat)
    requires p < |raw| && p < |other| && raw[..p] == other[..p] && other[p] == APOSTROPHE
    ensures var m := Matched(raw, annotation);
            Matched(other, annotation) == if m < p then m else p
  {
    if annotation != "" {
      var before := annotation[..|annotation| - 1];
      MatchedStopsAtApostrophe(raw, other, before, p);
      var m := Matched(raw, before);
      if m < p {
        assert raw[m] == raw[..p][m] == other[..p][m] == other[m];
      }
    }
  }

  /** Projecting the same annotation a second time onto an already projected text is NOT harmless:
      the text is left alone exactly when the first projection inserted nothing. */
  lemma ReprojectingDoublesApostrophes(raw: string, annotation: string)
    ensures Project(Project(raw, annotation), annotation) == Project(raw, annotation)
        <==> Breaks(raw, annotation) == []
  {
    if Breaks(raw, annotation) == [] {
      InsertNothing(raw, [], |raw|);
      assert raw[..|raw|] == raw;
    } else {
      FirstBreakAgain(raw, annotation);
      var once := Project(raw, annotation);
      BreaksAreSorted(once, annotation);
      InsertLength(once, Breaks(once, annotation), |once|);
    }
  }

  /** The first break is found again in front of its own apostrophe. */
  lemma FirstBreakAgain(raw: string, annotation: string)
    requires Breaks(raw, annotation) != []
    ensures Breaks(raw, annotation)[0] in Breaks(Project(raw, annotation), annotation)
    ensures Breaks(raw, annotation)[0] < |Project(raw, annotation)|
  {
    var breaks := Breaks(raw, annotation);
    var once := Project(raw, annotation);
    var p := breaks[0];
    BreaksAreSorted(raw, annotation);
    assert p in breaks;
    InsertNothing(raw, breaks, p);
    InsertPrefix(raw, breaks, p, |raw|);
    assert raw[..p] + [APOSTROPHE] <= once;
    assert once[..p] == raw[..p];
    BreaksFromPrefixes(raw, annotation, p);
    var i :| 0 <= i < |annotation| && IsSeparator(annotation[i]) && Matched(raw, annotation[..i]) == p;
    MatchedStopsAtApostrophe(raw, once, annotation[..i], p);
    InsertLength(raw, breaks, |raw|);
    BreaksFromPrefixes(once, annotation, p);
  }

  /** For instance "haode" annotated "ha'o'de" and projected twice. */
  lemma ReprojectionExample()
    ensures Breaks("haode", "ha'o'de") != []
    ensures Project(Project("haode", "ha'o'de"), "ha'o'de") != Project("haode", "ha'o'de")
  {
    assert "ha"[..1] == "h" && "ha'"[..2] == "ha" && "h"[..0] == "";
    assert Matched("haode", "ha") == 2 by {
      assert Matched("haode", "") == 0;
      assert Matched("haode", "h") == 1;
    }
    BreaksFromPrefixes("haode", "ha'o'de", 2);
    assert "ha'o'de"[..2] == "ha";
    ReprojectingDoublesApostrophes("haode", "ha'o'de");
  }
}
