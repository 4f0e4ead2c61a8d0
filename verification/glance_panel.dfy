/** The glance panel (panel/AbstractGlancePanel.kt): the disabled guard and
    preferred size, the render gate around the background pass, the paint
    path with its composition buffer, and the geometry of the markers it
    draws over the minimap. */
module GlancePanel {
  import opened Editor
  import opened Highlight
  import Minimap

  /** The settings the panel reads. */
  datatype PanelConfig = PanelConfig(
    disabled: bool, width: int, minLineCount: int, minWindowWidth: int, pixelsPerLine: int)

  /** What the panel reads from its host at a given moment: the document's
      length and line count, the host's size ceiling for files it analyses,
      the width of the parent component (None before it is added) and whether
      the project is disposed. */
  datatype Host = Host(
    textLength: int, lineCount: int, maxFileSize: int, parentWidth: Option<int>, projectDisposed: bool)

  datatype Dimension = Dimension(width: int, height: int)

  /** isDisabled: switched off in the settings, a document above the size
      ceiling or below the minimum line count, or a parent that is empty or
      narrower than the minimum window width. */
  predicate IsDisabled(cfg: PanelConfig, host: Host) {
    || cfg.disabled
    || host.textLength > host.maxFileSize
    || host.lineCount < cfg.minLineCount
    || (host.parentWidth.Some? && (host.parentWidth.value == 0 || host.parentWidth.value < cfg.minWindowWidth))
  }

  /** updateSize: a disabled panel collapses to nothing, an enabled one asks
      for the configured width and leaves the height to the layout. */
  function PreferredSize(cfg: PanelConfig, host: Host): (d: Dimension)
    ensures d.height == 0
    ensures IsDisabled(cfg, host) ==> d.width == 0
    ensures !IsDisabled(cfg, host) ==> d.width == cfg.width
  {
    if IsDisabled(cfg, host) then Dimension(0, 0) else Dimension(cfg.width, 0)
  }

  /** A one-line document under a minimum of five lines collapses the panel. */
  lemma ShortDocumentCollapses(cfg: PanelConfig, host: Host)
    requires host.lineCount == 1 && cfg.minLineCount == 5
    ensures PreferredSize(cfg, host) == Dimension(0, 0)
  {
  }

  // ---------------------------------------------------------------------------
  // The render gate

  /** The render lock: `locked` while a pass is in flight, `dirty` once
      someone asked for a pass while it was locked. */
  class DirtyLock {
    var locked: bool
    var dirty: bool

    constructor ()
      ensures !locked && !dirty
    {
      locked, dirty := false, false;
    }

    /** Takes the lock if it is free; otherwise marks it dirty. */
    method Acquire() returns (ok: bool)
      modifies this
      ensures ok == !old(locked)
      ensures locked
      ensures dirty == (old(dirty) || old(locked))
    {
      if locked {
        dirty := true;
        return false;
      }
      locked := true;
      return true;
    }

    method Release()
      modifies this`locked
      ensures !locked
    {
      locked := false;
    }

    method Clean()
      modifies this`dirty
      ensures !dirty
    {
      dirty := false;
    }
  }

  /** The panel state the orchestration changes: the render lock, how many
      passes are scheduled and not yet ended, how many deferred updateImage
      calls are queued on the UI thread, the composition buffer and the
      preferred size. */
  class Panel {
    const config: PanelConfig
    const lock: DirtyLock
    var inFlight: nat
    var queuedUpdates: nat
    var buf: array2?<Minimap.Pixel>
    var preferredSize: Dimension

    /** At most one pass runs, and one runs exactly while the lock is held. */
    ghost predicate Valid()
      reads this, lock
    {
      inFlight <= 1 && (inFlight == 1 <==> lock.locked)
    }

    constructor (config: PanelConfig)
      ensures Valid() && fresh(lock)
      ensures this.config == config && inFlight == 0 && queuedUpdates == 0 && buf == null
      ensures !lock.dirty
    {
      this.config := config;
      lock := new DirtyLock();
      inFlight, queuedUpdates, buf := 0, 0, null;
      preferredSize := Dimension(0, 0);
    }

    /** updateSize. */
    method UpdateSize(host: Host)
      modifies this`preferredSize
      ensures preferredSize == PreferredSize(config, host)
    {
      preferredSize := if IsDisabled(config, host) then Dimension(0, 0) else Dimension(config.width, 0);
    }

    /** updateImage: schedule a pass only if the panel is enabled, the project
        alive and the lock acquired; a caller that finds the lock held only
        leaves it dirty. */
    method UpdateImage(host: Host) returns (scheduled: bool)
      requires Valid()
      modifies this`inFlight, lock
      ensures Valid()
      ensures scheduled <==> !IsDisabled(config, host) && !host.projectDisposed && !old(lock.locked)
      ensures scheduled ==> inFlight == 1 && lock.dirty == old(lock.dirty)
      ensures !scheduled ==> inFlight == old(inFlight) && lock.locked == old(lock.locked)
      ensures (IsDisabled(config, host) || host.projectDisposed) ==> lock.dirty == old(lock.dirty)
      ensures !IsDisabled(config, host) && !host.projectDisposed && old(lock.locked) ==> lock.dirty
    {
      if IsDisabled(config, host) {
        return false;
      }
      if host.projectDisposed {
        return false;
      }
      var acquired := lock.Acquire();
      if !acquired {
        return false;
      }
      inFlight := inFlight + 1;
      scheduled := true;
    }

    /** updateTask.onCanceled: release and clean the lock and queue a fresh
        updateImage on the UI thread. */
    method OnCanceled()
      requires Valid() && inFlight == 1
      modifies this`inFlight, this`queuedUpdates, lock
      ensures Valid()
      ensures inFlight == 0 && !lock.locked && !lock.dirty
      ensures queuedUpdates == old(queuedUpdates) + 1
    {
      lock.Release();
      lock.Clean();
      inFlight := 0;
      queuedUpdates := queuedUpdates + 1;
    }

    /** The UI thread runs one queued updateImage. */
    method RunQueuedUpdate(host: Host) returns (scheduled: bool)
      requires Valid() && queuedUpdates > 0
      modifies this`inFlight, this`queuedUpdates, lock
      ensures Valid()
      ensures queuedUpdates == old(queuedUpdates) - 1
      ensures scheduled <==> !IsDisabled(config, host) && !host.projectDisposed && !old(lock.locked)
      ensures scheduled ==> inFlight == 1 && lock.dirty == old(lock.dirty)
      ensures !scheduled ==> inFlight == old(inFlight) && lock.locked == old(lock.locked)
      ensures (IsDisabled(config, host) || host.projectDisposed) ==> lock.dirty == old(lock.dirty)
      ensures !IsDisabled(config, host) && !host.projectDisposed && old(lock.locked) ==> lock.dirty
    {
      queuedUpdates := queuedUpdates - 1;
      scheduled := UpdateImage(host);
    }

    /** paint: while a pass is in flight only the previous buffer and the
        overlays are drawn; otherwise the buffer is grown to the panel size if
        needed and cleared before the minimap slice is drawn into it. */
    method Paint(width: int, height: int, hasDrawImage: bool, textLength: int) returns (r: PaintResult)
      requires width > 0 && height > 0
      modifies this`buf, buf
      ensures old(lock.locked) ==> r == PaintedLast(old(buf) != null) && buf == old(buf)
                                   && (buf != null ==> unchanged(buf))
      ensures !old(lock.locked) && !hasDrawImage ==> r == NoImage && buf == old(buf)
                                                     && (buf != null ==> unchanged(buf))
      ensures !old(lock.locked) && hasDrawImage ==>
                && r == Composed(textLength != 0)
                && buf != null && buf.Length0 >= width && buf.Length1 >= height
                && (old(buf) != null && old(buf).Length0 >= width && old(buf).Length1 >= height ==> buf == old(buf))
                && (old(buf) == null || old(buf).Length0 < width || old(buf).Length1 < height ==>
                      fresh(buf) && buf.Length0 == width && buf.Length1 == height)
                && (forall c, row :: 0 <= c < width && 0 <= row < height ==> buf[c, row] == Minimap.Transparent)
                && (buf == old(buf) ==>
                      forall c, row :: 0 <= c < buf.Length0 && 0 <= row < buf.Length1 && !(c < width && row < height) ==>
                        buf[c, row] == old(buf[c, row]))
    {
      if lock.locked {
        return PaintedLast(buf != null);
      }
      if !hasDrawImage {
        return NoImage;
      }
      if buf == null || buf.Length0 < width || buf.Length1 < height {
        buf := new Minimap.Pixel[width, height];
      }
      var b := buf;
      ClearRegion(b, width, height);
      r := Composed(textLength != 0);
    }
  }

  /** What a paint call drew: the last buffer (if there was one) during a
      pass, nothing when there is no minimap image, or a fresh composition
      that blits the minimap slice unless the document is empty. */
  datatype PaintResult = PaintedLast(hadBuffer: bool) | NoImage | Composed(blitted: bool)

  /** The CLEAR fill of the panel-sized area of the buffer. */
  method ClearRegion(b: array2<Minimap.Pixel>, width: int, height: int)
    requires 0 <= width <= b.Length0 && 0 <= height <= b.Length1
    modifies b
    ensures forall c, r :: 0 <= c < width && 0 <= r < height ==> b[c, r] == Minimap.Transparent
    ensures forall c, r :: 0 <= c < b.Length0 && 0 <= r < b.Length1 && !(c < width && r < height) ==>
              b[c, r] == old(b[c, r])
  {
    for c := 0 to width
      invariant forall c', r :: 0 <= c' < c && 0 <= r < height ==> b[c', r] == Minimap.Transparent
      invariant forall c', r :: 0 <= c' < b.Length0 && 0 <= r < b.Length1 && !(c' < width && r < height) ==>
                  b[c', r] == old(b[c', r])
    {
      for r := 0 to height
        invariant forall c', r' :: 0 <= c' < c && 0 <= r' < height ==> b[c', r'] == Minimap.Transparent
        invariant forall r' :: 0 <= r' < r ==> b[c, r'] == Minimap.Transparent
        invariant forall c', r' :: 0 <= c' < b.Length0 && 0 <= r' < b.Length1 && !(c' < width && r' < height) ==>
                    b[c', r'] == old(b[c', r'])
      {
        b[c, r] := Minimap.Transparent;
      }
    }
  }

  /** A cancelled pass leaves the lock free and clean, and the queued
      updateImage schedules a new pass while the panel stays enabled. */
  method CancelThenRetry(panel: Panel, host: Host)
    requires panel.Valid() && panel.inFlight == 1
    requires !IsDisabled(panel.config, host) && !host.projectDisposed
    modifies panel`inFlight, panel`queuedUpdates, panel.lock
    ensures panel.Valid() && panel.inFlight == 1
  {
    panel.OnCanceled();
    var scheduled := panel.RunQueuedUpdate(host);
    assert scheduled;
  }

  // ---------------------------------------------------------------------------
  // Fold compensation

  /** Line shifts of a line range: (startAdd, endAdd). */
  datatype LineShift = LineShift(startAdd: int, endAdd: int)

  /** The folds getDocumentRenderLine counts: collapsed custom regions with
      non-negative offsets. */
  predicate CountsForShift(f: FoldRegion) {
    f.custom && !f.expanded && f.start >= 0 && f.end >= 0
  }

  /** The contribution of one counted fold spanning lines [start, end] to the
      shifts of the line range (lineStart, lineEnd). */
  function FoldShift(text: seq<char>, f: FoldRegion, lineStart: int, lineEnd: int): (s: LineShift)
    requires CountsForShift(f) && f.start <= f.end <= |text|
    ensures 0 <= s.startAdd <= s.endAdd
  {
    var start := LineOf(text, f.start);
    var end := LineOf(text, f.end);
    LinesBetween(text, f.start, f.end);
    if lineStart < start && end < lineEnd then LineShift(0, end - start)
    else if end < lineEnd then LineShift(end - start, end - start)
    else LineShift(0, 0)
  }

  /** The sum over the counted folds of `folds`. */
  function RenderLineShift(text: seq<char>, folds: seq<FoldRegion>, lineStart: int, lineEnd: int): LineShift
    requires FoldsWithin(folds, |text|)
  {
    if folds == [] then LineShift(0, 0)
    else
      var rest := RenderLineShift(text, folds[..|folds| - 1], lineStart, lineEnd);
      var f := folds[|folds| - 1];
      if CountsForShift(f) then
        var s := FoldShift(text, f, lineStart, lineEnd);
        LineShift(rest.startAdd + s.startAdd, rest.endAdd + s.endAdd)
      else rest
  }

  /** The start of a range never shifts by more than its end. */
  lemma {:induction false} ShiftOrdered(text: seq<char>, folds: seq<FoldRegion>, lineStart: int, lineEnd: int)
    requires FoldsWithin(folds, |text|)
    ensures 0 <= RenderLineShift(text, folds, lineStart, lineEnd).startAdd
                <= RenderLineShift(text, folds, lineStart, lineEnd).endAdd
    decreases |folds|
  {
    if folds != [] {
      ShiftOrdered(text, folds[..|folds| - 1], lineStart, lineEnd);
    }
  }

  /** Without counted folds nothing shifts. */
  lemma {:induction false} NoCustomFoldsNoShift(text: seq<char>, folds: seq<FoldRegion>, lineStart: int, lineEnd: int)
    requires FoldsWithin(folds, |text|)
    requires forall k :: 0 <= k < |folds| ==> !CountsForShift(folds[k])
    ensures RenderLineShift(text, folds, lineStart, lineEnd) == LineShift(0, 0)
    decreases |folds|
  {
    if folds != [] {
      NoCustomFoldsNoShift(text, folds[..|folds| - 1], lineStart, lineEnd);
    }
  }

  /** getDocumentRenderLine. */
  method GetDocumentRenderLine(text: seq<char>, folds: seq<FoldRegion>, lineStart: int, lineEnd: int)
    returns (shift: LineShift)
    requires FoldsWithin(folds, |text|)
    ensures shift == RenderLineShift(text, folds, lineStart, lineEnd)
    ensures 0 <= shift.startAdd <= shift.endAdd
  {
    var startAdd, endAdd := 0, 0;
    for k := 0 to |folds|
      invariant LineShift(startAdd, endAdd) == RenderLineShift(text, folds[..k], lineStart, lineEnd)
    {
      assert folds[..k + 1][..k] == folds[..k];
      var f := folds[k];
      if CountsForShift(f) {
        var start := LineOf(text, f.start);
        var end := LineOf(text, f.end);
        var i := end - start;
        if lineStart < start && end < lineEnd {
          endAdd := endAdd + i;
        } else if end < lineEnd {
          startAdd := startAdd + i;
          endAdd := endAdd + i;
        }
      }
    }
    assert folds[..|folds|] == folds;
    shift := LineShift(startAdd, endAdd);
    ShiftOrdered(text, folds, lineStart, lineEnd);
  }

  // ---------------------------------------------------------------------------
  // Marker geometry

  /** The smallest width a single-row marker is drawn with. */
  const MinGap := 15

  /** A host visual position: row and column. */
  datatype VisualPosition = VisualPosition(line: int, column: int)

  datatype Rect = Rect(x: int, y: int, w: int, h: int)

  /** A marker to draw: its colour and the rectangles filled with it. */
  datatype Marker = Marker(color: Color, rects: seq<Rect>)

  /** The marker colour: the error-stripe colour, else the background, else
      the foreground of the highlighter's attributes. */
  function MarkerColor(h: Highlighter): (c: Option<Color>)
    ensures c.None? <==> h.stripe.None? && (h.attrs.Attributes? ==> h.attrs.background.None? && h.attrs.foreground.None?)
  {
    if h.stripe.Some? then h.stripe
    else if h.attrs.Attributes? && h.attrs.background.Some? then h.attrs.background
    else if h.attrs.Attributes? then h.attrs.foreground
    else None
  }

  /** drawMarkupLine: the rectangles a highlighter's marker fills, given the
      logical lines of its ends, their visual positions, whether its start is
      in a collapsed region, the panel width and the scroll offset. */
  method DrawMarkupLine(h: Highlighter, text: seq<char>, folds: seq<FoldRegion>,
                        startLogicalLine: int, endLogicalLine: int,
                        start: VisualPosition, end: VisualPosition, collapsed: bool,
                        width: nat, ppl: int, visibleStart: int, compensateLine: bool)
    returns (r: Option<Marker>)
    requires FoldsWithin(folds, |text|)
    ensures r.None? <==> MarkerColor(h).None?
    ensures r.Some? ==> r.value.color == MarkerColor(h).value
    ensures r.Some? ==>
      var shift := RenderLineShift(text, folds, startLogicalLine, endLogicalLine);
      var sY := (start.line + shift.startAdd) * ppl - visibleStart;
      var eY := (end.line + shift.endAdd) * ppl - visibleStart;
      var sX := if start.column > width - MinGap then width - MinGap else start.column;
      var eX := if start.column < width - MinGap then end.column + 1 else width;
      var rects := r.value.rects;
      && (start.line <= end.line && ppl >= 1 ==> sY <= eY)
      && (sY == eY && !collapsed ==>
            && |rects| == 1 && rects[0].y == sY && rects[0].h == ppl
            && rects[0].x <= width - MinGap
            && (!compensateLine || eX - sX >= MinGap ==> rects[0] == Rect(sX, sY, eX - sX, ppl))
            && (compensateLine && eX - sX < MinGap ==>
                  rects[0] == Rect(sX, sY, MinGap, ppl) && sX + MinGap <= width))
      && (collapsed ==> rects == [Rect(0, sY, width / 2, ppl)])
      && (sY != eY && !collapsed ==>
            && 2 <= |rects| <= 3
            && rects[0] == Rect(sX, sY, width - sX, ppl)
            && rects[1] == Rect(0, eY, eX, ppl)
            && (|rects| == 3 <==> eY + ppl != sY)
            && (|rects| == 3 ==> rects[2] == Rect(0, sY + ppl, width, eY - sY - ppl))
            && (start.line <= end.line && ppl >= 1 ==> |rects| == 3 && rects[2].h >= 0))
  {
    var color := MarkerColor(h);
    if color.None? {
      return None;
    }
    var documentLine := GetDocumentRenderLine(text, folds, startLogicalLine, endLogicalLine);
    var sX := if start.column > width - MinGap then width - MinGap else start.column;
    var sY := (start.line + documentLine.startAdd) * ppl - visibleStart;
    var eX := if start.column < width - MinGap then end.column + 1 else width;
    var eY := (end.line + documentLine.endAdd) * ppl - visibleStart;
    if start.line <= end.line && ppl >= 1 {
      RowOrder(start.line + documentLine.startAdd, end.line + documentLine.endAdd, ppl);
    }
    var rects: seq<Rect>;
    if sY == eY && !collapsed {
      var gap := eX - sX;
      if compensateLine && gap < MinGap {
        eX := eX + MinGap - gap;
        if eX > width {
          sX := sX - (eX - width);
        }
      }
      rects := [Rect(sX, sY, eX - sX, ppl)];
    } else if collapsed {
      rects := [Rect(0, sY, width / 2, ppl)];
    } else {
      rects := [Rect(sX, sY, width - sX, ppl), Rect(0, eY, eX, ppl)];
      if eY + ppl != sY {
        rects := rects + [Rect(0, sY + ppl, width, eY - sY - ppl)];
      }
    }
    r := Some(Marker(color.value, rects));
  }

  /** Rows of ordered lines are ordered, and distinct rows are at least one
      line height apart. */
  lemma {:induction false} RowOrder(a: int, b: int, ppl: int)
    requires a <= b && ppl >= 1
    ensures a * ppl <= b * ppl
    ensures a < b ==> a * ppl + ppl <= b * ppl
    decreases b - a
  {
    if a < b {
      RowOrder(a, b - 1, ppl);
      assert b * ppl == (b - 1) * ppl + ppl;
    }
  }
}
