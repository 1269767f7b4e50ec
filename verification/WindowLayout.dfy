/** What the settings of the candidate window mean for what is seen: which setting holds which side, how
    far rows stand apart, which alignment is which, and how large the window is. */
module WindowLayout {
  import opened Wrappers
  import opened Numbers
  import opened RowGeometry

  /** A setting of one side, or the one shared with the opposite side; below zero it counts as zero. */
  ghost predicate IsSide(n: int, own: Option<int>, shared: int) {
    match own
    case Some(v) => (v >= 0 ==> n == v) && (v < 0 ==> n == 0)
    case None => (shared >= 0 ==> n == shared) && (shared < 0 ==> n == 0)
  }

  ghost predicate IsGap(n: int, setting: int) { IsSide(n, None, setting) }

  lemma SideIsUsed(n: int, own: Option<int>, shared: int)
    requires IsSide(n, own, shared)
    ensures n == NonNegative(Or(own, shared))
  {
  }

  // ---------------------------------------------------------------- texts

  lemma {:induction false} WidthAdds(a: string, b: string, charWidth: nat)
    ensures TextPixelWidth(a + b, charWidth) == TextPixelWidth(a, charWidth) + TextPixelWidth(b, charWidth)
  {
    if a == [] {
      assert a + b == b;
    } else {
      assert (a + b)[1..] == a[1..] + b;
      WidthAdds(a[1..], b, charWidth);
    }
  }

  lemma OneMore(n: nat, k: nat)
    ensures (n + 1) * k == k + n * k
  {
  }

  /** A text of ASCII characters: each is half as wide as a wide one, rounded up. */
  lemma {:induction false} NarrowText(text: string, charWidth: nat, half: nat)
    requires forall c :: c in text ==> c < 128 as char
    requires 2 * half == charWidth || 2 * half == charWidth + 1
    ensures TextPixelWidth(text, charWidth) == |text| * half
  {
    if text != [] {
      assert text[0] in text && forall c :: c in text[1..] ==> c in text;
      NarrowText(text[1..], charWidth, half);
      OneMore(|text| - 1, half);
    }
  }

  /** And one of other characters; a mixed text is as wide as its parts. */
  lemma {:induction false} WideText(text: string, charWidth: nat)
    requires forall c :: c in text ==> c >= 128 as char
    ensures TextPixelWidth(text, charWidth) == |text| * charWidth
  {
    if text != [] {
      assert text[0] in text && forall c :: c in text[1..] ==> c in text;
      WideText(text[1..], charWidth);
      OneMore(|text| - 1, charWidth);
    }
  }

  /** What a candidate row holds: its candidate and, where there are any, a caption and a comment, each in its
      own font size and set apart by its own spacing. */
  lemma SegmentsAddUp(style: Style, entry: Entry, afterCaption: int, beforeComment: int)
    requires IsSide(afterCaption, style.layout.labelSpacing, style.layout.hiliteSpacing)
    requires IsSide(beforeComment, style.layout.commentSpacing, style.layout.hiliteSpacing)
    ensures SegmentedTextWidth(entry, style)
         == TextPixelWidth(entry.candidate, style.fontPoint)
            + (if entry.caption == [] then 0 else TextPixelWidth(entry.caption, style.labelFontPoint) + afterCaption)
            + (if entry.comment == [] then 0 else TextPixelWidth(entry.comment, style.commentFontPoint) + beforeComment)
  {
  }

  /** A line is the least height that holds the font and the least candidate height between the paddings. */
  lemma LineHoldsFont(layout: LayoutConfig, fontHeight: nat, top: int, bottom: int)
    requires IsSide(top, layout.hilitePaddingTop, layout.hilitePaddingY)
    requires IsSide(bottom, layout.hilitePaddingBottom, layout.hilitePaddingY)
    ensures var h := LineHeight(layout, fontHeight);
            && h >= 1 && h >= fontHeight + top + bottom && h >= layout.candidateMinHeight + top + bottom
            && (h == 1 || h == fontHeight + top + bottom || h == layout.candidateMinHeight + top + bottom)
  {
  }

  // ---------------------------------------------------------------- rows

  /** The candidates shown are the first ones, as many as a page holds and at least one. */
  lemma PageIsFront(candidates: seq<Entry>, pageSize: nat)
    ensures var shown := Page(candidates, pageSize);
            && shown <= candidates
            && (|shown| == |candidates| || |shown| == pageSize || (pageSize == 0 && |shown| == 1))
            && (|shown| <= pageSize || |shown| <= 1)
  {
  }

  /** The first candidate row, in a window without a preedit: inside the left and the top margin, and as wide
      as its paddings, its text and its mark. */
  lemma FirstRowLies(style: Style, entries: seq<Entry>, charWidth: nat, lineHeight: int, rows: seq<Row>,
                     left: int, top: int, before: int, behind: int)
    requires entries != [] && Laid(style, "", entries, charWidth, lineHeight, rows)
    requires IsSide(left, style.layout.marginLeft, style.layout.marginX)
    requires IsSide(top, style.layout.marginTop, style.layout.marginY)
    requires IsSide(before, style.layout.hilitePaddingLeft, style.layout.hilitePaddingX)
    requires IsSide(behind, style.layout.hilitePaddingRight, style.layout.hilitePaddingX)
    requires style.layout.markWidth <= 0 || style.layout.markHeight <= 0
    ensures rows[0].candidate == Some(0)
    ensures var width := SegmentedTextWidth(entries[0], style);
            rows[0].bounds == Rect(left, top, left + before + width + behind, top + lineHeight) && rows[0].contentWidth == width
  {
    SideIsUsed(left, style.layout.marginLeft, style.layout.marginX);
    SideIsUsed(top, style.layout.marginTop, style.layout.marginY);
    SideIsUsed(before, style.layout.hilitePaddingLeft, style.layout.hilitePaddingX);
    SideIsUsed(behind, style.layout.hilitePaddingRight, style.layout.hilitePaddingX);
    assert rows[0] == CandidateRow(style, "", entries, lineHeight, 0);
    assert LeftEdge(style, entries, 0) == style.layout.EffectiveMarginLeft();
    assert 0 * (lineHeight + NonNegative(style.layout.candidateSpacing)) == 0;
  }

  /** Below a preedit the candidates begin after the spacing. */
  lemma CandidatesFollowPreedit(style: Style, preedit: string, entries: seq<Entry>, charWidth: nat, lineHeight: int,
                                rows: seq<Row>, gap: int)
    requires preedit != [] && entries != [] && Laid(style, preedit, entries, charWidth, lineHeight, rows)
    requires IsGap(gap, style.layout.spacing)
    ensures rows[0].candidate == None && rows[1].candidate == Some(0)
    ensures rows[1].bounds.top == rows[0].bounds.bottom + gap
  {
    assert rows[1] == CandidateRow(style, preedit, entries, lineHeight, 0);
    assert 0 * (lineHeight + NonNegative(style.layout.candidateSpacing)) == 0;
  }

  /** Neighbouring candidates stand the candidate spacing apart, below each other in a vertical window and
      beside each other in a horizontal one. */
  lemma RowsStandApart(style: Style, preedit: string, entries: seq<Entry>, charWidth: nat, lineHeight: int,
                       rows: seq<Row>, k: nat, gap: int)
    requires k + 1 < |entries| && Laid(style, preedit, entries, charWidth, lineHeight, rows)
    requires IsGap(gap, style.layout.candidateSpacing)
    ensures var a, b := rows[Offset(preedit) + k].bounds, rows[Offset(preedit) + k + 1].bounds;
            if style.layout.kind.Vertical? then b.top == a.bottom + gap && b.left == a.left
            else b.left == a.right + gap && b.top == a.top
  {
    assert rows[Offset(preedit) + k] == CandidateRow(style, preedit, entries, lineHeight, k);
    assert rows[Offset(preedit) + k + 1] == CandidateRow(style, preedit, entries, lineHeight, k + 1);
    TopEdgeSteps(style, preedit, lineHeight, k);
  }

  // ---------------------------------------------------------------- the window

  /** The window is the least that has the least width and holds the content. */
  lemma WindowIsLeast(layout: LayoutConfig, width: int, height: int)
    ensures var w := WindowWidth(layout, width);
            w >= 1 && w >= width && w >= layout.minWidth && (w == 1 || w == width || w == layout.minWidth)
    ensures var h := WindowHeight(height);
            h >= 1 && h >= height && (h == 1 || h == height)
  {
  }

  /** Where the content ends: a bottom margin below the last candidate, after one more candidate spacing in a
      vertical window. */
  lemma ContentEnds(style: Style, preedit: string, entries: seq<Entry>, charWidth: nat, lineHeight: int,
                    rows: seq<Row>, width: int, height: int, margin: int, gap: int)
    requires 1 <= lineHeight && entries != []
    requires Laid(style, preedit, entries, charWidth, lineHeight, rows)
    requires Sized(style, preedit, entries, lineHeight, rows, width, height)
    requires IsSide(margin, style.layout.marginBottom, style.layout.marginY) && IsGap(gap, style.layout.candidateSpacing)
    ensures height == rows[|rows| - 1].bounds.bottom + (if style.layout.kind.Vertical? then gap else 0) + margin
  {
    var last := |entries| - 1;
    assert rows[Offset(preedit) + last] == CandidateRow(style, preedit, entries, lineHeight, last);
    TopEdgeSteps(style, preedit, lineHeight, last);
    EdgesAreInside(style, preedit, entries, lineHeight, last);
  }

  /** In a vertical window all candidate rows are stretched to the right margin, unless the window is hollow. */
  lemma RowsReachMargin(style: Style, preedit: string, entries: seq<Entry>, charWidth: nat, lineHeight: int,
                        rows: seq<Row>, width: int, height: int, k: nat, margin: int)
    requires k < |entries| && style.layout.kind.Vertical? && !Hollow(style, preedit, entries, charWidth)
    requires Laid(style, preedit, entries, charWidth, lineHeight, rows)
    requires Sized(style, preedit, entries, lineHeight, rows, width, height)
    requires IsSide(margin, style.layout.marginRight, style.layout.marginX)
    ensures var w := WindowWidth(style.layout, width);
            FinalRow(style.layout, w, rows[Offset(preedit) + k]).bounds.right == w - margin
  {
    assert rows[Offset(preedit) + k] == CandidateRow(style, preedit, entries, lineHeight, k);
    assert rows[Offset(preedit) + k].bounds.right <= width - style.layout.EffectiveMarginRight();
    HollowWidth(style, preedit, entries, charWidth, lineHeight, rows, width, height);
  }

  /** In a horizontal window no row is stretched, and neither is the preedit row of any window. */
  lemma OtherRowsKeepTheirWidth(layout: LayoutConfig, windowWidth: int, row: Row)
    requires layout.kind.Horizontal? || row.candidate.None?
    ensures FinalRow(layout, windowWidth, row) == row
  {
  }

  // ---------------------------------------------------------------- alignment

  /** How far the text of a row stands from the left and from the right end of what the paddings leave of it. */
  function GapBefore(row: Row, padding: int): int { row.x - (row.bounds.left + padding) }
  function GapBehind(row: Row, padding: int): int { row.bounds.right - padding - (row.x + row.contentWidth) }

  /** The room that a mark takes away. */
  function Reserved(layout: LayoutConfig, gap: int, spacing: int): int {
    if layout.markWidth > 0 && layout.markHeight > 0 then gap + layout.markWidth + spacing else 0
  }

  lemma MarkReserves(layout: LayoutConfig, gap: int, spacing: int)
    requires IsGap(gap, layout.markGap) && IsGap(spacing, layout.hiliteSpacing)
    ensures MarkReservation(layout) == Reserved(layout, gap, spacing)
  {
  }

  /** With room for it, text that is aligned left starts at the left padding, text that is aligned right ends
      at the right one, and centred text has equal gaps, or one more pixel behind it. A mark takes its gap, its
      own width and the highlight spacing away on its side. */
  lemma AlignmentIsMeant(layout: LayoutConfig, row: Row, before: int, behind: int, gap: int, spacing: int)
    requires IsSide(before, layout.hilitePaddingLeft, layout.hilitePaddingX)
    requires IsSide(behind, layout.hilitePaddingRight, layout.hilitePaddingX)
    requires IsGap(gap, layout.markGap) && IsGap(spacing, layout.hiliteSpacing)
    ensures var onLeft := if layout.markPosition.MarkLeft? then Reserved(layout, gap, spacing) else 0;
            var onRight := if layout.markPosition.MarkRight? then Reserved(layout, gap, spacing) else 0;
            var r := AlignRowText(row, layout);
            && r == row.(x := r.x)
            && (0 <= row.contentWidth && row.bounds.left + before + onLeft + row.contentWidth <= row.bounds.right - behind - onRight ==>
                  match layout.textAlign
                  case AlignLeft => GapBefore(r, before) == onLeft
                  case AlignRight => GapBehind(r, behind) == onRight
                  case AlignCenter => 0 <= (GapBehind(r, behind) - onRight) - (GapBefore(r, before) - onLeft) <= 1)
  {
    SideIsUsed(before, layout.hilitePaddingLeft, layout.hilitePaddingX);
    SideIsUsed(behind, layout.hilitePaddingRight, layout.hilitePaddingX);
    MarkReserves(layout, gap, spacing);
    AlignmentFrom(layout, row, MarkReservation(layout));
  }

  lemma AlignmentFrom(layout: LayoutConfig, row: Row, reserved: int)
    requires reserved == MarkReservation(layout)
    ensures var before, behind := layout.EffectiveHilitePaddingLeft(), layout.EffectiveHilitePaddingRight();
            var onLeft := if layout.markPosition.MarkLeft? then reserved else 0;
            var onRight := if layout.markPosition.MarkRight? then reserved else 0;
            var r := AlignRowText(row, layout);
            && r == row.(x := r.x)
            && (0 <= row.contentWidth && row.bounds.left + before + onLeft + row.contentWidth <= row.bounds.right - behind - onRight ==>
                  match layout.textAlign
                  case AlignLeft => GapBefore(r, before) == onLeft
                  case AlignRight => GapBehind(r, behind) == onRight
                  case AlignCenter => 0 <= (GapBehind(r, behind) - onRight) - (GapBefore(r, before) - onLeft) <= 1)
  {
  }
}
