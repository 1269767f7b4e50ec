/** The rows of the candidate window: where each lies, how rows are stretched to the window, where their
    text starts, and which candidate a click selects. Coordinates are unbounded integers. */
module RowGeometry {
  import opened Wrappers
  import opened Numbers

  datatype LayoutType = Horizontal | Vertical

  datatype MarkPosition = MarkLeft | MarkRight

  datatype TextAlign = AlignLeft | AlignCenter | AlignRight

  datatype LayoutConfig = LayoutConfig(
    kind: LayoutType, minWidth: int,
    marginX: int, marginY: int,
    marginLeft: Option<int>, marginRight: Option<int>, marginTop: Option<int>, marginBottom: Option<int>,
    hilitePaddingX: int, hilitePaddingY: int,
    hilitePaddingLeft: Option<int>, hilitePaddingRight: Option<int>,
    hilitePaddingTop: Option<int>, hilitePaddingBottom: Option<int>,
    spacing: int, candidateSpacing: int, hiliteSpacing: int,
    labelSpacing: Option<int>, commentSpacing: Option<int>,
    candidateMinHeight: int,
    markWidth: int, markHeight: int, markGap: int, markPosition: MarkPosition,
    textAlign: TextAlign)
  {
    function EffectiveMarginLeft(): nat { NonNegative(Or(marginLeft, marginX)) }
    function EffectiveMarginRight(): nat { NonNegative(Or(marginRight, marginX)) }
    function EffectiveMarginTop(): nat { NonNegative(Or(marginTop, marginY)) }
    function EffectiveMarginBottom(): nat { NonNegative(Or(marginBottom, marginY)) }
    function EffectiveHilitePaddingLeft(): nat { NonNegative(Or(hilitePaddingLeft, hilitePaddingX)) }
    function EffectiveHilitePaddingRight(): nat { NonNegative(Or(hilitePaddingRight, hilitePaddingX)) }
    function EffectiveHilitePaddingTop(): nat { NonNegative(Or(hilitePaddingTop, hilitePaddingY)) }
    function EffectiveHilitePaddingBottom(): nat { NonNegative(Or(hilitePaddingBottom, hilitePaddingY)) }
    function EffectiveLabelSpacing(): nat { NonNegative(Or(labelSpacing, hiliteSpacing)) }
    function EffectiveCommentSpacing(): nat { NonNegative(Or(commentSpacing, hiliteSpacing)) }
  }

  function Or(value: Option<int>, otherwise: int): int { if value.Some? then value.value else otherwise }

  function NonNegative(n: int): nat { if n < 0 then 0 else n }

  datatype Style = Style(layout: LayoutConfig, fontPoint: nat, labelFontPoint: nat, commentFontPoint: nat)

  /** The three texts a candidate row shows. */
  datatype Entry = Entry(caption: string, candidate: string, comment: string)

  datatype Rect = Rect(left: int, top: int, right: int, bottom: int)

  datatype Row = Row(bounds: Rect, contentWidth: int, x: int, candidate: Option<nat>)

  function LineHeight(layout: LayoutConfig, fontHeight: nat): int {
    Max(Max(fontHeight, NonNegative(layout.candidateMinHeight))
        + layout.EffectiveHilitePaddingTop() + layout.EffectiveHilitePaddingBottom(), 1)
  }

  function TextPixelWidth(text: string, charWidth: nat): nat {
    if text == [] then 0
    else (if text[0] < 128 as char then (charWidth + 1) / 2 else charWidth) + TextPixelWidth(text[1..], charWidth)
  }

  function SegmentedTextWidth(entry: Entry, style: Style): nat {
    TextPixelWidth(entry.candidate, style.fontPoint)
    + (if entry.caption == [] then 0
       else TextPixelWidth(entry.caption, style.labelFontPoint) + style.layout.EffectiveLabelSpacing())
    + (if entry.comment == [] then 0
       else TextPixelWidth(entry.comment, style.commentFontPoint) + style.layout.EffectiveCommentSpacing())
  }

  function MarkReservation(layout: LayoutConfig): nat {
    if layout.markWidth > 0 && layout.markHeight > 0 then
      NonNegative(layout.markGap) + NonNegative(layout.markWidth) + NonNegative(layout.hiliteSpacing)
    else 0
  }

  function AlignRowText(row: Row, layout: LayoutConfig): Row {
    var reservation := MarkReservation(layout);
    var left := row.bounds.left + layout.EffectiveHilitePaddingLeft() + if layout.markPosition.MarkLeft? then reservation else 0;
    var right := row.bounds.right - layout.EffectiveHilitePaddingRight() - if layout.markPosition.MarkRight? then reservation else 0;
    var available := NonNegative(right - left);
    var content := Min(row.contentWidth, available);
    row.(x := match layout.textAlign
      case AlignLeft => left
      case AlignCenter => left + Halved(available - content)
      case AlignRight => right - content)
  }

  /** Division by two, truncating towards zero. */
  function Halved(n: int): int { if n < 0 then -(-n / 2) else n / 2 }

  // ---------------------------------------------------------------- where rows belong

  /** The width of a row around its content. */
  function Span(style: Style, entry: Entry): nat {
    SegmentedTextWidth(entry, style) + style.layout.EffectiveHilitePaddingLeft() + style.layout.EffectiveHilitePaddingRight()
    + MarkReservation(style.layout)
  }

  function PreeditRow(style: Style, preedit: string, charWidth: nat, lineHeight: int): Row {
    var width := TextPixelWidth(preedit, charWidth);
    var margin := style.layout.EffectiveMarginLeft();
    var top := style.layout.EffectiveMarginTop();
    Row(Rect(0, top, width + margin, top + lineHeight), width, margin, None)
  }

  /** The top of the first candidate row. */
  function CandidatesTop(style: Style, preedit: string, lineHeight: int): int {
    style.layout.EffectiveMarginTop() + if preedit == [] then 0 else lineHeight + NonNegative(style.layout.spacing)
  }

  /** The left edge of candidate `k` in a horizontal window. */
  function LeftEdge(style: Style, entries: seq<Entry>, k: nat): int
    requires k <= |entries|
  {
    if k == 0 then style.layout.EffectiveMarginLeft()
    else LeftEdge(style, entries, k - 1) + Span(style, entries[k - 1]) + NonNegative(style.layout.candidateSpacing)
  }

  function TopEdge(style: Style, preedit: string, lineHeight: int, k: nat): int {
    CandidatesTop(style, preedit, lineHeight) + k * (lineHeight + NonNegative(style.layout.candidateSpacing))
  }

  function CandidateRow(style: Style, preedit: string, entries: seq<Entry>, lineHeight: int, k: nat): Row
    requires k < |entries|
  {
    var vertical := style.layout.kind.Vertical?;
    var left := if vertical then style.layout.EffectiveMarginLeft() else LeftEdge(style, entries, k);
    var top := if vertical then TopEdge(style, preedit, lineHeight, k) else CandidatesTop(style, preedit, lineHeight);
    AlignRowText(
      Row(Rect(left, top, left + Span(style, entries[k]), top + lineHeight), SegmentedTextWidth(entries[k], style), 0, Some(k)),
      style.layout)
  }

  function Offset(preedit: string): nat { if preedit == [] then 0 else 1 }

  /** The rows of a snapshot up to its first `count` candidates, before they are stretched. */
  ghost predicate LaidTo(style: Style, preedit: string, entries: seq<Entry>, count: nat, charWidth: nat, lineHeight: int,
                         rows: seq<Row>) {
    && count <= |entries|
    && |rows| == Offset(preedit) + count
    && (preedit != [] ==> rows[0] == PreeditRow(style, preedit, charWidth, lineHeight))
    && (forall k :: Offset(preedit) <= k < |rows| ==>
          rows[k] == CandidateRow(style, preedit, entries, lineHeight, k - Offset(preedit)))
  }

  ghost predicate Laid(style: Style, preedit: string, entries: seq<Entry>, charWidth: nat, lineHeight: int, rows: seq<Row>) {
    LaidTo(style, preedit, entries, |entries|, charWidth, lineHeight, rows)
  }

  /** The content size holds every row with its right margin, and ends below the last row's margin. */
  ghost predicate Encloses(style: Style, preedit: string, entries: seq<Entry>, lineHeight: int, rows: seq<Row>, width: int, height: int) {
    var margin := style.layout.EffectiveMarginRight();
    && (forall k :: 0 <= k < |rows| ==> rows[k].bounds.right <= width - margin)
    && style.layout.EffectiveMarginLeft() + margin <= width - margin
    && height == Max(ContentBottom(style, preedit, |entries|, lineHeight) + style.layout.EffectiveMarginBottom(), lineHeight)
  }

  /** And it is no wider than one of the rows or the bare margins ask for. */
  ghost predicate Sized(style: Style, preedit: string, entries: seq<Entry>, lineHeight: int, rows: seq<Row>, width: int, height: int) {
    var margin := style.layout.EffectiveMarginRight();
    && Encloses(style, preedit, entries, lineHeight, rows, width, height)
    && (|| width - margin == style.layout.EffectiveMarginLeft() + margin
        || exists k :: 0 <= k < |rows| && rows[k].bounds.right == width - margin)
  }

  /** Where the rows end, with the spacing after the last vertical row or after a lone preedit. */
  function ContentBottom(style: Style, preedit: string, count: nat, lineHeight: int): int {
    if style.layout.kind.Vertical? then TopEdge(style, preedit, lineHeight, count)
    else CandidatesTop(style, preedit, lineHeight) + if count > 0 then lineHeight else 0
  }

  /** `build_rows`, from the texts to show. */
  method BuildRows(style: Style, preedit: string, candidates: seq<Entry>, pageSize: nat, charWidth: nat, lineHeight: int)
    returns (rows: seq<Row>, width: int, height: int)
    ensures Laid(style, preedit, Page(candidates, pageSize), charWidth, lineHeight, rows)
    ensures Sized(style, preedit, Page(candidates, pageSize), lineHeight, rows, width, height)
  {
    var layout := style.layout;
    var y: int := layout.EffectiveMarginTop();
    rows := [];
    if preedit != [] {
      var textWidth := TextPixelWidth(preedit, charWidth);
      rows := [Row(Rect(0, y, textWidth + layout.EffectiveMarginLeft(), y + lineHeight), textWidth, layout.EffectiveMarginLeft(), None)];
      y := y + lineHeight + NonNegative(layout.spacing);
    }
    var entries := Page(candidates, pageSize);
    match layout.kind {
      case Vertical =>
        rows, y := AppendVertical(style, preedit, entries, charWidth, lineHeight, rows);
      case Horizontal =>
        rows := AppendHorizontal(style, preedit, entries, charWidth, lineHeight, rows);
        if |entries| > 0 {
          y := y + lineHeight;
        }
    }
    width := WidestRow(rows, layout.EffectiveMarginLeft() + layout.EffectiveMarginRight());
    width := width + layout.EffectiveMarginRight();
    height := Max(y + layout.EffectiveMarginBottom(), lineHeight);
  }

  method AppendVertical(style: Style, preedit: string, entries: seq<Entry>, charWidth: nat, lineHeight: int, start: seq<Row>)
    returns (rows: seq<Row>, y: int)
    requires style.layout.kind.Vertical? && LaidTo(style, preedit, entries, 0, charWidth, lineHeight, start)
    ensures Laid(style, preedit, entries, charWidth, lineHeight, rows)
    ensures y == TopEdge(style, preedit, lineHeight, |entries|)
  {
    var layout := style.layout;
    rows, y := start, CandidatesTop(style, preedit, lineHeight);
    for k := 0 to |entries|
      invariant LaidTo(style, preedit, entries, k, charWidth, lineHeight, rows)
      invariant y == TopEdge(style, preedit, lineHeight, k)
    {
      var textWidth := SegmentedTextWidth(entries[k], style);
      var right := textWidth + layout.EffectiveMarginLeft() + layout.EffectiveHilitePaddingLeft()
                   + layout.EffectiveHilitePaddingRight() + MarkReservation(layout);
      var row := AlignRowText(Row(Rect(layout.EffectiveMarginLeft(), y, right, y + lineHeight), textWidth, 0, Some(k)), layout);
      assert row == CandidateRow(style, preedit, entries, lineHeight, k);
      rows := rows + [row];
      TopEdgeSteps(style, preedit, lineHeight, k);
      y := y + lineHeight + NonNegative(layout.candidateSpacing);
    }
  }

  method AppendHorizontal(style: Style, preedit: string, entries: seq<Entry>, charWidth: nat, lineHeight: int, start: seq<Row>)
    returns (rows: seq<Row>)
    requires style.layout.kind.Horizontal? && LaidTo(style, preedit, entries, 0, charWidth, lineHeight, start)
    ensures Laid(style, preedit, entries, charWidth, lineHeight, rows)
  {
    var layout := style.layout;
    var y := CandidatesTop(style, preedit, lineHeight);
    var x: int := layout.EffectiveMarginLeft();
    rows := start;
    for k := 0 to |entries|
      invariant LaidTo(style, preedit, entries, k, charWidth, lineHeight, rows)
      invariant x == LeftEdge(style, entries, k)
    {
      var textWidth := SegmentedTextWidth(entries[k], style);
      var right := x + textWidth + layout.EffectiveHilitePaddingLeft() + layout.EffectiveHilitePaddingRight()
                   + MarkReservation(layout);
      var row := AlignRowText(Row(Rect(x, y, right, y + lineHeight), textWidth, 0, Some(k)), layout);
      assert row == CandidateRow(style, preedit, entries, lineHeight, k);
      rows := rows + [row];
      x := right + NonNegative(layout.candidateSpacing);
    }
  }

  function Page(candidates: seq<Entry>, pageSize: nat): seq<Entry> {
    if Max(pageSize, 1) < |candidates| then candidates[..Max(pageSize, 1)] else candidates
  }

  method WidestRow(rows: seq<Row>, least: int) returns (width: int)
    requires 0 <= least
    ensures least <= width && forall k :: 0 <= k < |rows| ==> rows[k].bounds.right <= width
    ensures width == least || exists k :: 0 <= k < |rows| && rows[k].bounds.right == width
  {
    width := least;
    for k := 0 to |rows|
      invariant least <= width && forall j :: 0 <= j < k ==> rows[j].bounds.right <= width
      invariant width == least || exists j :: 0 <= j < k && rows[j].bounds.right == width
    {
      width := Max(width, rows[k].bounds.right);
    }
  }

  lemma TopEdgeSteps(style: Style, preedit: string, lineHeight: int, k: nat)
    ensures TopEdge(style, preedit, lineHeight, k + 1)
         == TopEdge(style, preedit, lineHeight, k) + lineHeight + NonNegative(style.layout.candidateSpacing)
  {
  }

  // ---------------------------------------------------------------- the window around the rows

  function WindowWidth(layout: LayoutConfig, contentWidth: int): int { Max(Max(contentWidth, layout.minWidth), 1) }

  function WindowHeight(contentHeight: int): int { Max(contentHeight, 1) }

  function Stretched(layout: LayoutConfig, windowWidth: int, row: Row): Row {
    if row.candidate.None? then row
    else
      var right := Max(Max(windowWidth - layout.EffectiveMarginRight(), 1), row.bounds.left + 1);
      AlignRowText(row.(bounds := row.bounds.(right := right)), layout)
  }

  /** The row as it is shown. */
  function FinalRow(layout: LayoutConfig, windowWidth: int, row: Row): Row {
    if layout.kind.Vertical? then Stretched(layout, windowWidth, row) else row
  }

  method StretchVerticalCandidateRows(rows: array<Row>, windowWidth: int, layout: LayoutConfig)
    modifies rows
    ensures forall k :: 0 <= k < rows.Length ==> rows[k] == Stretched(layout, windowWidth, old(rows[k]))
  {
    var right := Max(windowWidth - layout.EffectiveMarginRight(), 1);
    for k := 0 to rows.Length
      invariant forall j :: 0 <= j < k ==> rows[j] == Stretched(layout, windowWidth, old(rows[j]))
      invariant forall j :: k <= j < rows.Length ==> rows[j] == old(rows[j])
    {
      if rows[k].candidate.Some? {
        var bounds := rows[k].bounds.(right := Max(right, rows[k].bounds.left + 1));
        rows[k] := AlignRowText(rows[k].(bounds := bounds), layout);
      }
    }
  }

  /** Rows and window size as `handle_snapshot` settles them. */
  method LayOut(style: Style, preedit: string, candidates: seq<Entry>, pageSize: nat, charWidth: nat, fontHeight: nat)
    returns (rows: array<Row>, windowWidth: int, windowHeight: int, ghost built: seq<Row>, ghost width: int, ghost height: int)
    ensures fresh(rows)
    ensures var lineHeight := LineHeight(style.layout, fontHeight);
            && Laid(style, preedit, Page(candidates, pageSize), charWidth, lineHeight, built)
            && Sized(style, preedit, Page(candidates, pageSize), lineHeight, built, width, height)
    ensures windowWidth == WindowWidth(style.layout, width) && windowHeight == WindowHeight(height)
    ensures rows.Length == |built|
    ensures forall k :: 0 <= k < |built| ==> rows[k] == FinalRow(style.layout, windowWidth, built[k])
  {
    var lineHeight := LineHeight(style.layout, fontHeight);
    var laid, contentWidth, contentHeight := BuildRows(style, preedit, candidates, pageSize, charWidth, lineHeight);
    built, width, height := laid, contentWidth, contentHeight;
    rows := new Row[|laid|](i requires 0 <= i < |laid| => laid[i]);
    windowWidth := WindowWidth(style.layout, contentWidth);
    if style.layout.kind.Vertical? {
      StretchVerticalCandidateRows(rows, windowWidth, style.layout);
    }
    windowHeight := WindowHeight(contentHeight);
  }

  predicate Contains(r: Rect, x: int, y: int) { r.left <= x < r.right && r.top <= y < r.bottom }

  /** The click hit test: the first row at the point that belongs to a candidate. */
  method HitTest(rows: seq<Row>, x: int, y: int) returns (r: Option<nat>)
    ensures r.Some? ==> exists i :: 0 <= i < |rows| && Contains(rows[i].bounds, x, y) && rows[i].candidate == r
    ensures r.None? ==> forall i :: 0 <= i < |rows| && rows[i].candidate.Some? ==> !Contains(rows[i].bounds, x, y)
  {
    r := None;
    for i := 0 to |rows|
      invariant forall j :: 0 <= j < i && rows[j].candidate.Some? ==> !Contains(rows[j].bounds, x, y)
    {
      if Contains(rows[i].bounds, x, y) && rows[i].candidate.Some? {
        return rows[i].candidate;
      }
    }
  }

  // ---------------------------------------------------------------- what holds of every window

  lemma {:induction false} TopEdgesGrow(style: Style, preedit: string, lineHeight: int, i: nat, j: nat)
    requires i < j && 1 <= lineHeight
    ensures TopEdge(style, preedit, lineHeight, i) + lineHeight + NonNegative(style.layout.candidateSpacing)
         <= TopEdge(style, preedit, lineHeight, j)
    decreases j
  {
    TopEdgeSteps(style, preedit, lineHeight, j - 1);
    if i < j - 1 {
      TopEdgesGrow(style, preedit, lineHeight, i, j - 1);
    }
  }

  lemma {:induction false} LeftEdgesGrow(style: Style, entries: seq<Entry>, i: nat, j: nat)
    requires i < j <= |entries|
    ensures LeftEdge(style, entries, i) + Span(style, entries[i]) <= LeftEdge(style, entries, j)
    decreases j
  {
    if i < j - 1 {
      LeftEdgesGrow(style, entries, i, j - 1);
    }
  }

  lemma {:induction false} EdgesAreInside(style: Style, preedit: string, entries: seq<Entry>, lineHeight: int, k: nat)
    requires k <= |entries| && 1 <= lineHeight
    ensures style.layout.EffectiveMarginTop() <= CandidatesTop(style, preedit, lineHeight) <= TopEdge(style, preedit, lineHeight, k)
    ensures style.layout.EffectiveMarginLeft() <= LeftEdge(style, entries, k)
    decreases k
  {
    if k > 0 {
      TopEdgeSteps(style, preedit, lineHeight, k - 1);
      EdgesAreInside(style, preedit, entries, lineHeight, k - 1);
    }
  }

  /** A vertical window with nothing to show and no width asked for: no right margin, no minimum width
      beyond the left margin, and every row as wide as that margin. */
  predicate Hollow(style: Style, preedit: string, entries: seq<Entry>, charWidth: nat) {
    var layout := style.layout;
    && layout.kind.Vertical? && layout.EffectiveMarginRight() == 0 && layout.minWidth <= layout.EffectiveMarginLeft()
    && layout.EffectiveMarginLeft() >= 1 && TextPixelWidth(preedit, charWidth) == 0
    && forall k :: 0 <= k < |entries| ==> Span(style, entries[k]) == 0
  }

  lemma HollowWidth(style: Style, preedit: string, entries: seq<Entry>, charWidth: nat, lineHeight: int,
                    rows: seq<Row>, width: int, height: int)
    requires style.layout.kind.Vertical? && entries != []
    requires Laid(style, preedit, entries, charWidth, lineHeight, rows)
    requires Sized(style, preedit, entries, lineHeight, rows, width, height)
    ensures WindowWidth(style.layout, width) - style.layout.EffectiveMarginRight() == style.layout.EffectiveMarginLeft()
       <==> Hollow(style, preedit, entries, charWidth)
  {
    var margin := style.layout.EffectiveMarginLeft();
    forall i | 0 <= i < |rows|
      ensures rows[i].bounds.right == margin
        + if i < Offset(preedit) then TextPixelWidth(preedit, charWidth) else Span(style, entries[i - Offset(preedit)])
    {
      assert i >= Offset(preedit) ==> rows[i] == CandidateRow(style, preedit, entries, lineHeight, i - Offset(preedit));
    }
    forall k | 0 <= k < |entries|
      ensures margin + Span(style, entries[k]) <= width - style.layout.EffectiveMarginRight()
    {
      assert rows[Offset(preedit) + k].bounds.right <= width - style.layout.EffectiveMarginRight();
    }
    if preedit != [] {
      assert rows[0].bounds.right <= width - style.layout.EffectiveMarginRight();
    }
  }

  /** Every candidate row lies inside the margins, except that in a hollow window rows stick out by a pixel. */
  lemma RowsStayInsideMargins(style: Style, preedit: string, entries: seq<Entry>, charWidth: nat, lineHeight: int,
                              rows: seq<Row>, width: int, height: int, k: nat)
    requires 1 <= lineHeight && k < |entries|
    requires Laid(style, preedit, entries, charWidth, lineHeight, rows)
    requires Sized(style, preedit, entries, lineHeight, rows, width, height)
    ensures var layout := style.layout;
            var w := WindowWidth(layout, width);
            var r := FinalRow(layout, w, rows[Offset(preedit) + k]).bounds;
            && layout.EffectiveMarginLeft() <= r.left <= r.right
            && layout.EffectiveMarginTop() <= r.top < r.bottom <= WindowHeight(height) - layout.EffectiveMarginBottom()
            && (if Hollow(style, preedit, entries, charWidth) then r.right == w + 1 else r.right <= w - layout.EffectiveMarginRight())
  {
    EdgesAreInside(style, preedit, entries, lineHeight, k);
    TopEdgesGrow(style, preedit, lineHeight, k, |entries|);
    assert rows[Offset(preedit) + k] == CandidateRow(style, preedit, entries, lineHeight, k);
    assert rows[Offset(preedit) + k].bounds.right <= width - style.layout.EffectiveMarginRight();
    if style.layout.kind.Vertical? {
      HollowWidth(style, preedit, entries, charWidth, lineHeight, rows, width, height);
    }
  }

  /** One such window: a single candidate without text, a left margin of one pixel and nothing else. */
  lemma HollowWindow(fontPoint: nat, charWidth: nat, lineHeight: int)
    requires 1 <= lineHeight
    ensures var layout := LayoutConfig(Vertical, 0, 0, 0, Some(1), None, None, None, 0, 0, None, None, None, None,
                                       0, 0, 0, None, None, 0, 0, 0, 0, MarkLeft, AlignLeft);
            var style := Style(layout, fontPoint, fontPoint, fontPoint);
            var entries := [Entry("", "", "")];
            var rows := [CandidateRow(style, "", entries, lineHeight, 0)];
            && Laid(style, "", entries, charWidth, lineHeight, rows) && Sized(style, "", entries, lineHeight, rows, 1, lineHeight)
            && WindowWidth(layout, 1) == 1 && FinalRow(layout, 1, rows[0]).bounds == Rect(1, 0, 2, lineHeight)
  {
  }

  /** The preedit row starts at the window's edge, not at the margin; only its text keeps the margin. With or
      without candidates it ends before the right and the bottom margin, and above every candidate row. */
  lemma PreeditRowStays(style: Style, preedit: string, entries: seq<Entry>, charWidth: nat, lineHeight: int,
                        rows: seq<Row>, width: int, height: int)
    requires 1 <= lineHeight && preedit != []
    requires Laid(style, preedit, entries, charWidth, lineHeight, rows)
    requires Encloses(style, preedit, entries, lineHeight, rows, width, height)
    ensures var layout := style.layout;
            var w := WindowWidth(layout, width);
            var r := FinalRow(layout, w, rows[0]);
            && r.candidate == None && r.bounds.left == 0
            && r.x == layout.EffectiveMarginLeft() && r.x + r.contentWidth == r.bounds.right
            && r.bounds.right <= w - layout.EffectiveMarginRight()
            && layout.EffectiveMarginTop() == r.bounds.top < r.bounds.bottom <= WindowHeight(height) - layout.EffectiveMarginBottom()
            && forall k :: 1 <= k < |rows| ==> r.bounds.bottom <= FinalRow(layout, w, rows[k]).bounds.top
  {
    EdgesAreInside(style, preedit, entries, lineHeight, |entries|);
    forall k | 1 <= k < |rows|
      ensures rows[0].bounds.bottom <= FinalRow(style.layout, WindowWidth(style.layout, width), rows[k]).bounds.top
    {
      EdgesAreInside(style, preedit, entries, lineHeight, k - 1);
      assert rows[k] == CandidateRow(style, preedit, entries, lineHeight, k - 1);
    }
    assert rows[0].bounds.right <= width - style.layout.EffectiveMarginRight();
  }

  /** Stretching a row changes its right edge only, and never inwards. */
  lemma StretchingNeverShrinks(style: Style, preedit: string, entries: seq<Entry>, charWidth: nat, lineHeight: int,
                               rows: seq<Row>, width: int, height: int, i: nat)
    requires i < |rows|
    requires Laid(style, preedit, entries, charWidth, lineHeight, rows)
    requires Encloses(style, preedit, entries, lineHeight, rows, width, height)
    ensures var before := rows[i];
            var after := FinalRow(style.layout, WindowWidth(style.layout, width), before);
            && before.bounds.right <= after.bounds.right
            && after.bounds == before.bounds.(right := after.bounds.right)
            && after.contentWidth == before.contentWidth && after.candidate == before.candidate
  {
    assert rows[i].bounds.right <= width - style.layout.EffectiveMarginRight();
  }

  /** No point lies in two rows. */
  lemma RowsAreDisjoint(style: Style, preedit: string, entries: seq<Entry>, charWidth: nat, lineHeight: int,
                        rows: seq<Row>, width: int, height: int, i: nat, j: nat, x: int, y: int)
    requires 1 <= lineHeight && i < j < |rows|
    requires Laid(style, preedit, entries, charWidth, lineHeight, rows)
    requires Encloses(style, preedit, entries, lineHeight, rows, width, height)
    ensures var w := WindowWidth(style.layout, width);
            !(Contains(FinalRow(style.layout, w, rows[i]).bounds, x, y) && Contains(FinalRow(style.layout, w, rows[j]).bounds, x, y))
  {
    var o := Offset(preedit);
    assert rows[j] == CandidateRow(style, preedit, entries, lineHeight, j - o);
    EdgesAreInside(style, preedit, entries, lineHeight, j - o);
    StretchingNeverShrinks(style, preedit, entries, charWidth, lineHeight, rows, width, height, i);
    StretchingNeverShrinks(style, preedit, entries, charWidth, lineHeight, rows, width, height, j);
    if i < o {
      assert rows[i].bounds.bottom <= rows[j].bounds.top;
    } else {
      assert rows[i] == CandidateRow(style, preedit, entries, lineHeight, i - o);
      if style.layout.kind.Vertical? {
        TopEdgesGrow(style, preedit, lineHeight, i - o, j - o);
        assert rows[i].bounds.bottom <= rows[j].bounds.top;
      } else {
        LeftEdgesGrow(style, entries, i - o, j - o);
        assert rows[i].bounds.right <= rows[j].bounds.left;
      }
    }
  }

  /** The horizontal extent of the mark of a highlighted row, without its configured offset. */
  function MarkSpan(layout: LayoutConfig, bounds: Rect): (int, int) {
    var left := match layout.markPosition
      case MarkLeft => bounds.left + NonNegative(layout.markGap)
      case MarkRight => bounds.right - NonNegative(layout.markGap) - NonNegative(layout.markWidth);
    (left, left + NonNegative(layout.markWidth))
  }

  function MarkHeight(layout: LayoutConfig, bounds: Rect): int {
    Min(NonNegative(layout.markHeight), bounds.bottom - bounds.top)
  }

  /** A row that has room for its content shows all of it between its paddings, clear of the mark, and
      the mark stays inside the row. */
  lemma TextKeepsClear(layout: LayoutConfig, row: Row)
    requires 0 <= row.contentWidth
    requires row.bounds.left + row.contentWidth + layout.EffectiveHilitePaddingLeft() + layout.EffectiveHilitePaddingRight()
             + MarkReservation(layout) <= row.bounds.right
    ensures var r := AlignRowText(row, layout);
            && row.bounds.left + layout.EffectiveHilitePaddingLeft() <= r.x
            && r.x + r.contentWidth <= row.bounds.right - layout.EffectiveHilitePaddingRight()
            && (layout.markWidth > 0 && MarkHeight(layout, row.bounds) > 0 ==>
                  var mark := MarkSpan(layout, row.bounds);
                  && row.bounds.left <= mark.0 && mark.1 <= row.bounds.right
                  && (mark.1 <= r.x || r.x + r.contentWidth <= mark.0))
  {
  }

  /** So in every window, whatever the alignment and however far the rows were stretched. */
  lemma CandidateTextKeepsClear(style: Style, preedit: string, entries: seq<Entry>, charWidth: nat, lineHeight: int,
                                rows: seq<Row>, width: int, height: int, k: nat)
    requires k < |entries|
    requires Laid(style, preedit, entries, charWidth, lineHeight, rows)
    requires Encloses(style, preedit, entries, lineHeight, rows, width, height)
    ensures var layout := style.layout;
            var r := FinalRow(layout, WindowWidth(layout, width), rows[Offset(preedit) + k]);
            var mark := MarkSpan(layout, r.bounds);
            && r.contentWidth == SegmentedTextWidth(entries[k], style)
            && r.bounds.left + layout.EffectiveHilitePaddingLeft() <= r.x
            && r.x + r.contentWidth <= r.bounds.right - layout.EffectiveHilitePaddingRight()
            && (layout.markWidth > 0 && MarkHeight(layout, r.bounds) > 0 ==>
                  && r.bounds.left <= mark.0 && mark.1 <= r.bounds.right
                  && (mark.1 <= r.x || r.x + r.contentWidth <= mark.0))
  {
    var built := rows[Offset(preedit) + k];
    assert built == CandidateRow(style, preedit, entries, lineHeight, k);
    StretchingNeverShrinks(style, preedit, entries, charWidth, lineHeight, rows, width, height, Offset(preedit) + k);
    var r := FinalRow(style.layout, WindowWidth(style.layout, width), built);
    assert r == AlignRowText(built.(bounds := r.bounds), style.layout);
    TextKeepsClear(style.layout, built.(bounds := r.bounds));
  }

  /** A click selects candidate `k` exactly when `k` is a candidate of the snapshot and on its page, and the click
      falls into row `k`. */
  method Click(style: Style, preedit: string, candidates: seq<Entry>, pageSize: nat, charWidth: nat, fontHeight: nat, x: int, y: int)
    returns (r: Option<nat>, ghost rows: seq<Row>, ghost width: int, ghost height: int)
    ensures var lineHeight := LineHeight(style.layout, fontHeight);
            && Laid(style, preedit, Page(candidates, pageSize), charWidth, lineHeight, rows)
            && Sized(style, preedit, Page(candidates, pageSize), lineHeight, rows, width, height)
    ensures forall k: nat :: r == Some(k) <==>
              && k < |candidates| && k < Max(pageSize, 1)
              && Contains(FinalRow(style.layout, WindowWidth(style.layout, width), rows[Offset(preedit) + k]).bounds, x, y)
  {
    var cells, w, h;
    cells, w, h, rows, width, height := LayOut(style, preedit, candidates, pageSize, charWidth, fontHeight);
    r := HitTest(cells[..], x, y);
    ghost var entries := Page(candidates, pageSize);
    ghost var lineHeight := LineHeight(style.layout, fontHeight);
    HitIsExact(style, preedit, entries, charWidth, lineHeight, rows, width, height, cells[..], x, y, r);
  }

  lemma HitIsExact(style: Style, preedit: string, entries: seq<Entry>, charWidth: nat, lineHeight: int,
                   rows: seq<Row>, width: int, height: int, shown: seq<Row>, x: int, y: int, r: Option<nat>)
    requires 1 <= lineHeight
    requires Laid(style, preedit, entries, charWidth, lineHeight, rows)
    requires Encloses(style, preedit, entries, lineHeight, rows, width, height)
    requires |shown| == |rows|
    requires forall i :: 0 <= i < |rows| ==> shown[i] == FinalRow(style.layout, WindowWidth(style.layout, width), rows[i])
    requires r.Some? ==> exists i :: 0 <= i < |shown| && Contains(shown[i].bounds, x, y) && shown[i].candidate == r
    requires r.None? ==> forall i :: 0 <= i < |shown| && shown[i].candidate.Some? ==> !Contains(shown[i].bounds, x, y)
    ensures forall k: nat :: r == Some(k) <==> k < |entries| && Contains(shown[Offset(preedit) + k].bounds, x, y)
  {
    var o := Offset(preedit);
    forall i | 0 <= i < |shown|
      ensures shown[i].candidate == if i < o then None else Some(i - o)
    {
      if o <= i {
        assert rows[i] == CandidateRow(style, preedit, entries, lineHeight, i - o);
      }
    }
    forall i, j | 0 <= i < j < |shown|
      ensures !(Contains(shown[i].bounds, x, y) && Contains(shown[j].bounds, x, y))
    {
      RowsAreDisjoint(style, preedit, entries, charWidth, lineHeight, rows, width, height, i, j, x, y);
    }
    FirstIsOnly(shown, o, |entries|, x, y, r);
  }

  lemma FirstIsOnly(shown: seq<Row>, first: nat, count: nat, x: int, y: int, r: Option<nat>)
    requires |shown| == first + count
    requires forall i :: 0 <= i < |shown| ==> shown[i].candidate == if i < first then None else Some(i - first)
    requires forall i, j :: 0 <= i < j < |shown| ==> !(Contains(shown[i].bounds, x, y) && Contains(shown[j].bounds, x, y))
    requires r.Some? ==> exists i :: 0 <= i < |shown| && Contains(shown[i].bounds, x, y) && shown[i].candidate == r
    requires r.None? ==> forall i :: 0 <= i < |shown| && shown[i].candidate.Some? ==> !Contains(shown[i].bounds, x, y)
    ensures forall k: nat :: r == Some(k) <==> k < count && Contains(shown[first + k].bounds, x, y)
  {
    forall k: nat | k < count && Contains(shown[first + k].bounds, x, y)
      ensures r == Some(k)
    {
      assert shown[first + k].candidate == Some(k);
    }
  }
}
