# CodeGlance minimap — a verified model of the render engine

This project models the core of the CodeGlance Pro editor minimap in Dafny.

- **The rasterizer** (`Minimap.update` and its helpers). It makes one forward pass over the syntax highlighter's tokens. It walks a pixel cursor over the document: a tab is 4 columns, any other character is 1, and a line feed goes to column 0 of the next row of `pixelsPerLine` pixels. It jumps over collapsed, non-custom fold regions and counts the lines they hide. It resolves each character's colour from its token, else from the markup highlighters, else from the scheme default. It writes weighted pixels into an image. That image is reallocated only when it is missing or too small, and it is cleared before every pass.
- **The glance panel** (`AbstractGlancePanel`). This covers:
  - the disabled guard and the preferred size;
  - the render gate: a pass is scheduled only when the `DirtyLock` is acquired, and a cancelled pass releases and cleans the lock and queues a new `updateImage`;
  - the paint path and its composition buffer;
  - fold compensation for line numbers (`getDocumentRenderLine`);
  - the rectangles of a marker (`drawMarkupLine`).

Files:

- `editor.dfy` (module `Editor`) is the host state as plain values. It holds the text with line lookup, fold regions and colours.
- `highlight.dfy` (module `Highlight`) is colour resolution from the markup model (`getColor`).
- `minimap.dfy` (module `Minimap`) is the rasterizer. The class `Minimap` holds the image as an `array2<Pixel>`. The pass is split into methods, one per loop of `update`. Each method keeps a ghost record of its pixel writes. Its postconditions say that the image is exactly those writes applied to a cleared image, and that every write meets `WriteOk`:
  - the character lies inside the text;
  - no collapsed fold jumps that offset;
  - the offset lies before the end of the token that draws it;
  - the cell row `cellY` and the column passed the bounds check;
  - the pixel is one of the character's weighted writes, in the character's colour.

  The record is also pinned down exactly: each method's record equals a reference function of its inputs (`CharWrites`, `TokenWrites`, `TokenStep`, `Pass`), so `Rasterize` makes precisely the writes of the reference pass `Pass`.
- `glance_panel.dfy` (module `GlancePanel`) is the panel. The class `DirtyLock` is the render lock. The class `Panel` holds the lock state, the passes in flight, the queued UI-thread updates and the composition buffer.

Host services become inputs:

- The text is a `seq<char>`. Line numbers and line starts are computed from the line feeds in it.
- Tokens are `(start, end, foreground?)` records.
- Fold regions are `{start, end, expanded, custom}` records. The `custom` flag stands for the reflective `isCustomFoldRegionImpl` test.
- Visual and logical positions of offsets are parameters of `DrawMarkupLine`.

Source notes:

- In `drawMarkupLine`, the start column `sX` is capped at `width − minGap` before a single-row marker is widened. The widened end `sX + minGap` therefore never passes `width`, so the overflow shift on line 157 never runs. `DrawMarkupLine` states this outright: a widened marker is exactly `minGap` wide and ends inside the panel.
- An image is kept only when it is big enough in both dimensions. When it is reallocated because one dimension is too small, the other dimension becomes `config.width` or `documentHeight + 100 · pixelsPerLine`. That can be smaller than before. So the image never shrinks while it is big enough, but a reallocation can shrink one side. `Minimap.Minimap.Update` states exactly this.
- The cancellation check runs once, before the token walk (Minimap.kt:49), not once per token. The model follows the code: cancellation is an outside event, handled by `OnCanceled`.
- The comparator is the IntelliJ platform's `IterationState.createByLayerThenByAttributesComparator`. It is modelled as "higher layer first, then higher attribute rank". Highlighters that tie under it may come in any order.
- The host's `getCollapsedRegionAtOffset` returns the outermost collapsed region at an offset. The model takes the first matching region of a fold list kept in the host's order (`FoldsOrdered`), which is that region (`CollapsedRegionIsOutermost`).
- `DirtyLock` and `ScrollState` are modelled from how the panel uses them: a lock with `locked`/`dirty`, where `acquire` fails on a held lock and marks it dirty; and a record of five integers.
- `getColor` keeps the lowest-priority foreground, not the highest (see "Findings"). The rasterizer uses the intended pick, `GetColor`.

## Model

| member | source | states |
|---|---|---|
| `Editor.LineStartOf` | src/main/kotlin/com/nasller/codeglance/render/Minimap.kt:54 | the line start is at or before the offset, follows a line feed or the text start, and no line feed lies between it and the offset |
| `Editor.LineStartSameLine` | src/main/kotlin/com/nasller/codeglance/render/Minimap.kt:54-55 | the line iterator's start lies on the same line as the token start |
| `Editor.LinesBetween` | src/main/kotlin/com/nasller/codeglance/render/Minimap.kt:69 | line numbers never decrease with offsets; they grow by exactly the line feeds in between |
| `Editor.FoldSpan` | src/main/kotlin/com/nasller/codeglance/render/Minimap.kt:69 | the number of lines a region hides, line(end) − line(start), is never negative |
| `Editor.CollapsedRegionAt` | src/main/kotlin/com/nasller/codeglance/render/Minimap.kt:64-66 | a region found is collapsed, belongs to the model and contains the offset; if none is found, no collapsed region contains it |
| `Editor.CollapsedRegionIsOutermost` | src/main/kotlin/com/nasller/codeglance/render/Minimap.kt:64-66 | on a fold list in the host's order (by start, enclosing regions first) the region found contains every collapsed region at the offset: it is the outermost one |
| `Highlight.Candidates` | src/main/kotlin/com/nasller/codeglance/render/Minimap.kt:119-125 | keeps exactly the valid, non-erase-marker highlighters overlapping [max(0, offset−1), offset] |
| `Highlight.InsertSorted` | src/main/kotlin/com/nasller/codeglance/render/Minimap.kt:127 | inserting into a priority-sorted list keeps it sorted |
| `Highlight.SortByPriority` | src/main/kotlin/com/nasller/codeglance/render/Minimap.kt:126-127 | the result is sorted by layer, then attributes, and is a permutation of the input |
| `Highlight.FirstForegroundIndex` | src/main/kotlin/com/nasller/codeglance/render/Minimap.kt:128-133 | intended lookup: the index found has a foreground and every earlier highlighter has none; the index is the length when there is none |
| `Highlight.GetColor` | src/main/kotlin/com/nasller/codeglance/render/Minimap.kt:117-135 | intended lookup: with no candidate foreground the scheme default is returned |
| `Highlight.GetColorIsTopPriority` | src/main/kotlin/com/nasller/codeglance/render/Minimap.kt:117-135 | intended lookup: otherwise the colour is a candidate's foreground, and no candidate with a foreground outranks that candidate |
| `Highlight.HigherLayerWins` | src/main/kotlin/com/nasller/codeglance/render/Minimap.kt:126-134 | intended lookup: of two overlapping highlighters with foregrounds, the higher layer's colour is used |
| `Highlight.FirstForegroundOnTop` | src/main/kotlin/com/nasller/codeglance/render/Minimap.kt:126-133 | intended lookup: in a sorted list no highlighter with a foreground outranks the first one that has a foreground |
| `Highlight.LastForegroundIndex` | src/main/kotlin/com/nasller/codeglance/render/Minimap.kt:128-133 | lookup as written: the index found has a foreground and no later highlighter has one; −1 when none has |
| `Highlight.LastForeground` | src/main/kotlin/com/nasller/codeglance/render/Minimap.kt:128-133 | the forEach leaves in `color` the foreground of the last highlighter that has one, or none |
| `Highlight.ColorAsWritten` | src/main/kotlin/com/nasller/codeglance/render/Minimap.kt:117-135 | lookup as written: with no candidate foreground the scheme default is returned |
| `Highlight.GetColorAsWritten` | src/main/kotlin/com/nasller/codeglance/render/Minimap.kt:117-135 | getColor as written returns `ColorAsWritten`: the last foreground in priority order, else the default |
| `Highlight.LastForegroundAtBottom` | src/main/kotlin/com/nasller/codeglance/render/Minimap.kt:126-133 | in a sorted list the last highlighter with a foreground outranks none of those with a foreground |
| `Highlight.ColorAsWrittenIsBottomPriority` | src/main/kotlin/com/nasller/codeglance/render/Minimap.kt:117-135 | lookup as written: the colour is a candidate's foreground, and that candidate outranks no candidate with a foreground |
| `Highlight.LowerLayerWinsAsWritten` | src/main/kotlin/com/nasller/codeglance/render/Minimap.kt:126-134 | for two overlapping highlighters on different layers the code as written returns the lower layer's colour, which differs from the intended pick whenever the colours differ |
| `Highlight.AsWrittenAgreesOnSameForeground` | src/main/kotlin/com/nasller/codeglance/render/Minimap.kt:117-135 | where all candidates with a foreground have the same one, getColor as written and the intended lookup return the same colour; with `LowerLayerWinsAsWritten` this bounds where the two differ |
| `Minimap.SetPixelValue` | src/main/kotlin/com/nasller/codeglance/render/Minimap.kt:201-207 | alpha above 1 becomes the colour's own alpha, a negative alpha becomes 0, and [0,1] is kept; a valid colour yields an alpha in [0,1] |
| `Minimap.CleanWeight` | src/main/kotlin/com/nasller/codeglance/render/Minimap.kt:138-143 | weight is 0 exactly for codes 0..32, and never above 0.8 |
| `Minimap.CleanPlan` | src/main/kotlin/com/nasller/codeglance/render/Minimap.kt:143-164 | no write for weight 0 or a line height outside 1..4; rows stay within the cell (row 1 for one-pixel lines); the top row stays empty at 4 pixels; alphas lie in (0, 0.48] |
| `Minimap.AccuratePlan` | src/main/kotlin/com/nasller/codeglance/render/Minimap.kt:167-192 | no write exactly when both weights are 0 (or the line height is outside 1..4); rows stay within the cell; the top row stays empty at 4 pixels |
| `Minimap.PlanFor` | src/main/kotlin/com/nasller/codeglance/render/Minimap.kt:102-106 | in clean mode a character is written exactly when its code is above 32; every write lands at most `pixelsPerLine` rows below the cell's top row, and strictly fewer when `pixelsPerLine` > 1 (with one pixel per line the write goes to the row below) |
| `Minimap.Step` | src/main/kotlin/com/nasller/codeglance/render/Minimap.kt:92-99 | one cursor advance: a line feed goes to column 0 one row of `pixelsPerLine` lower; any other character keeps the row and adds its columns (4 for a tab, else 1) |
| `Minimap.WalkRows` | src/main/kotlin/com/nasller/codeglance/render/Minimap.kt:92-99 | the cursor row grows by `pixelsPerLine` per line feed passed |
| `Minimap.WalkColumns` | src/main/kotlin/com/nasller/codeglance/render/Minimap.kt:83 | within a line the cursor column grows by 4 per tab and 1 per other character |
| `Minimap.RowTracksLine` | src/main/kotlin/com/nasller/codeglance/render/Minimap.kt:55 | a cursor that starts on row (line − foldedLines)·ppl is on row (line(b) − foldedLines)·ppl after walking to offset b |
| `Minimap.CheckFold` | src/main/kotlin/com/nasller/codeglance/render/Minimap.kt:63-76 | jumps exactly at collapsed, non-custom regions with non-negative offsets; a jump moves to the region's end and adds its line span; foldedLines never decreases; otherwise nothing changes |
| `Minimap.ColorAt` | src/main/kotlin/com/nasller/codeglance/render/Minimap.kt:57-60 | a character's colour is its token's foreground when it has one (lines 57-60), else the intended markup lookup `GetColor` (line 101); wherever the candidates agree on their foreground this equals getColor as written |
| `Minimap.CharWrites` | src/main/kotlin/com/nasller/codeglance/render/Minimap.kt:102-106 | the writes for one character: one setPixel per entry of its plan, so as many writes as the plan has entries, at the cursor's column and the plan's rows, in `ColorAt`'s colour |
| `Minimap.TokenWrites` | src/main/kotlin/com/nasller/codeglance/render/Minimap.kt:88-107 | the writes of a token's scanned characters: each character drawn with the cursor after its own advance, exactly when that position passes the bounds check (definition; `TokenWritesOnLineRow` states where the writes land) |
| `Minimap.CharWritesShape` | src/main/kotlin/com/nasller/codeglance/render/Minimap.kt:100-106 | every write for one character carries its offset, its token, and the cursor's row and column |
| `Minimap.CharWritesOk` | src/main/kotlin/com/nasller/codeglance/render/Minimap.kt:100-107 | a character no fold hides, inside its token, drawn at a cursor that passed the bounds check, makes only writes that meet `WriteOk` |
| `Minimap.LastCharOnLineRow` | src/main/kotlin/com/nasller/codeglance/render/Minimap.kt:92-106 | the writes of the last character walked lie on the row of the line it ends, less the folded lines, at the column the walk reaches |
| `Minimap.TokenWritesOnLineRow` | src/main/kotlin/com/nasller/codeglance/render/Minimap.kt:55-109 | every write of a token's scan lies before the scan end, on the row of the line its character ends (less the folded lines) and at the column the walk reaches |
| `Minimap.WritesInsideImage` | src/main/kotlin/com/nasller/codeglance/render/Minimap.kt:100 | every recorded write lands inside the image |
| `Minimap.CleanSkipsBlanks` | src/main/kotlin/com/nasller/codeglance/render/Minimap.kt:138-143 | clean mode never writes for a character with code 0..32 |
| `Minimap.LinePrefix` | src/main/kotlin/com/nasller/codeglance/render/Minimap.kt:77-87 | the pre-loop stops between where it starts and the token start, at an offset inside the text |
| `Minimap.LinePrefixColumns` | src/main/kotlin/com/nasller/codeglance/render/Minimap.kt:79-83 | the column the pre-loop ends at is the width of the characters from the line start to where it stopped |
| `Minimap.LinePrefixNoFoldBeforeStop` | src/main/kotlin/com/nasller/codeglance/render/Minimap.kt:81-82 | the pre-loop takes no fold jump before the offset it stops at |
| `Minimap.LinePrefixStops` | src/main/kotlin/com/nasller/codeglance/render/Minimap.kt:81-86 | the pre-loop stops at the token start or right after the column passes the width, taking no jump and keeping the folded lines, or at a fold jump whose offset and folded-line count it takes |
| `Minimap.LinePrefixWidth` | src/main/kotlin/com/nasller/codeglance/render/Minimap.kt:83-85 | starting inside the width, the pre-loop ends inside it or right after the one character that took the column past it |
| `Minimap.TokenScan` | src/main/kotlin/com/nasller/codeglance/render/Minimap.kt:88-109 | the cursor is the walk over the characters scanned; folded lines never decrease; the scan runs past the document only at the text end for a token reaching past it; otherwise it stops at the token end without a jump or at a fold jump whose result it takes |
| `Minimap.TokenScanNoFoldBeforeStop` | src/main/kotlin/com/nasller/codeglance/render/Minimap.kt:88-89 | the main loop takes no fold jump before the offset it stops at |
| `Minimap.NextTokenFrom` | src/main/kotlin/com/nasller/codeglance/render/Minimap.kt:111-113 | the next token index lies between the first candidate index and the token count |
| `Minimap.TokenStep` | src/main/kotlin/com/nasller/codeglance/render/Minimap.kt:50-113 | a token step that hands on to a next token moves to a later token |
| `Minimap.Pass` | src/main/kotlin/com/nasller/codeglance/render/Minimap.kt:41-114 | the reference pass: token steps from the first token, column 0, no previous row and nothing folded, with their writes concatenated until a step stops or the tokens run out (definition; `Rasterize` is proved equal to it) |
| `Minimap.ClearImage` | src/main/kotlin/com/nasller/codeglance/render/Minimap.kt:33-35 | every pixel is transparent afterwards |
| `Minimap.PlotChar` | src/main/kotlin/com/nasller/codeglance/render/Minimap.kt:100-107 | the write record grows by exactly `CharWrites` for the character at the cursor; the image equals the record applied to a cleared image; every write meets `WriteOk` |
| `Minimap.PutPixel` | src/main/kotlin/com/nasller/codeglance/render/Minimap.kt:207 | the write record grows by the write and the image still equals the record applied to a cleared image |
| `Minimap.ScanLinePrefix` | src/main/kotlin/com/nasller/codeglance/render/Minimap.kt:78-87 | returns exactly `LinePrefix` from the line start with column 0, so the stop, width, column and no-fold lemmas about `LinePrefix` hold for it |
| `Minimap.DrawChar` | src/main/kotlin/com/nasller/codeglance/render/Minimap.kt:92-107 | the cursor advances one step over the character, and the record grows by that character's writes exactly when the new position passes the bounds check (`TokenWrites` one character further) |
| `Minimap.RenderTokenChars` | src/main/kotlin/com/nasller/codeglance/render/Minimap.kt:88-109 | returns exactly `TokenScan` from the token's entry; the record grows by exactly `TokenWrites` over the scanned characters; the image equals the record; every write meets `WriteOk` |
| `Minimap.NextToken` | src/main/kotlin/com/nasller/codeglance/render/Minimap.kt:111-113 | equals `NextTokenFrom` from the following token; advances at least once and skips exactly the tokens that start before the new offset |
| `Minimap.StartToken` | src/main/kotlin/com/nasller/codeglance/render/Minimap.kt:51-87 | the row is (line − foldedLines)·ppl; on a new row the entry is the pre-loop from the line start, otherwise the carried column at the token start (`LineEntry`) |
| `Minimap.RenderToken` | src/main/kotlin/com/nasller/codeglance/render/Minimap.kt:51-113 | does exactly one `TokenStep`: the record grows by its writes; it stops exactly when the step ends the pass, with that end, and otherwise hands over the step's state; a stop is a token starting or reaching past the document |
| `Minimap.Rasterize` | src/main/kotlin/com/nasller/codeglance/render/Minimap.kt:41-114 | the end and the write record equal the reference pass `Pass`; the image is the record applied to a cleared image; every write meets `WriteOk`; with all tokens inside the document the pass finishes |
| `Minimap.Minimap.constructor` | src/main/kotlin/com/nasller/codeglance/render/Minimap.kt:20-21 | a new minimap has no image |
| `Minimap.Minimap.Update` | src/main/kotlin/com/nasller/codeglance/render/Minimap.kt:25-36 | the image is afterwards at least config width × document height; a big-enough image is kept; otherwise a fresh config width × (documentHeight + 100·ppl) image is used; the end and writes are those of `Pass` over it |
| `GlancePanel.IsDisabled` | src/main/kotlin/com/nasller/codeglance/panel/AbstractGlancePanel.kt:53-55 | disabled exactly when switched off, the text is longer than the size ceiling, the document has fewer lines than the minimum, or a parent is empty or narrower than the minimum width (definition; `PreferredSize` uses it) |
| `GlancePanel.PreferredSize` | src/main/kotlin/com/nasller/codeglance/panel/AbstractGlancePanel.kt:95-101 | (0,0) when disabled, (config width, 0) otherwise |
| `GlancePanel.ShortDocumentCollapses` | src/main/kotlin/com/nasller/codeglance/panel/AbstractGlancePanel.kt:53-55 | a one-line document with a minimum of five lines collapses the panel |
| `GlancePanel.DirtyLock.Acquire` | src/main/kotlin/com/nasller/codeglance/panel/AbstractGlancePanel.kt:111 | succeeds exactly when the lock was free; the lock is held afterwards; a failed attempt marks it dirty |
| `GlancePanel.DirtyLock.Release` | src/main/kotlin/com/nasller/codeglance/panel/AbstractGlancePanel.kt:44 | the lock is free afterwards |
| `GlancePanel.DirtyLock.Clean` | src/main/kotlin/com/nasller/codeglance/panel/AbstractGlancePanel.kt:45 | the dirty flag is cleared |
| `GlancePanel.Panel.UpdateSize` | src/main/kotlin/com/nasller/codeglance/panel/AbstractGlancePanel.kt:95-101 | the preferred size becomes `PreferredSize` |
| `GlancePanel.Panel.UpdateImage` | src/main/kotlin/com/nasller/codeglance/panel/AbstractGlancePanel.kt:108-113 | schedules exactly when enabled, the project is alive and the lock was free; otherwise nothing is scheduled and the lock is only marked dirty when it was held; at most one pass is ever in flight |
| `GlancePanel.Panel.OnCanceled` | src/main/kotlin/com/nasller/codeglance/panel/AbstractGlancePanel.kt:43-47 | the lock is released and clean, no pass is in flight and one more updateImage is queued |
| `GlancePanel.Panel.RunQueuedUpdate` | src/main/kotlin/com/nasller/codeglance/panel/AbstractGlancePanel.kt:103-113 | consumes one queued call and behaves as updateImage: schedules under the same conditions, leaves the in-flight count and the lock untouched when it does not schedule, and marks the lock dirty exactly when it was held on an enabled panel of a live project |
| `GlancePanel.CancelThenRetry` | src/main/kotlin/com/nasller/codeglance/panel/AbstractGlancePanel.kt:43-47 | after a cancellation the queued update schedules a new pass on an enabled panel |
| `GlancePanel.Panel.Paint` | src/main/kotlin/com/nasller/codeglance/panel/AbstractGlancePanel.kt:193-217 | while locked only the last buffer is used and left untouched; otherwise the buffer is kept when big enough, else replaced by a fresh panel-sized one; the panel area is cleared, and a kept buffer larger than the panel is left as it was outside that area |
| `GlancePanel.ClearRegion` | src/main/kotlin/com/nasller/codeglance/panel/AbstractGlancePanel.kt:202-204 | the panel-sized area is transparent and the rest of the buffer is unchanged |
| `GlancePanel.FoldShift` | src/main/kotlin/com/nasller/codeglance/panel/AbstractGlancePanel.kt:128-136 | one fold adds to neither total, to the end only (strictly inside the range) or to both, never more to the start |
| `GlancePanel.ShiftOrdered` | src/main/kotlin/com/nasller/codeglance/panel/AbstractGlancePanel.kt:123-139 | 0 ≤ startAdd ≤ endAdd |
| `GlancePanel.NoCustomFoldsNoShift` | src/main/kotlin/com/nasller/codeglance/panel/AbstractGlancePanel.kt:126-127 | only collapsed custom folds with non-negative offsets shift lines |
| `GlancePanel.RenderLineShift` | src/main/kotlin/com/nasller/codeglance/panel/AbstractGlancePanel.kt:123-139 | the per-fold sum of `FoldShift` over the counted folds in list order (definition; `ShiftOrdered` gives 0 ≤ startAdd ≤ endAdd and `GetDocumentRenderLine`'s loop is proved equal to it) |
| `GlancePanel.GetDocumentRenderLine` | src/main/kotlin/com/nasller/codeglance/panel/AbstractGlancePanel.kt:123-139 | the loop's totals equal the per-fold sum `RenderLineShift`, with 0 ≤ startAdd ≤ endAdd |
| `GlancePanel.MarkerColor` | src/main/kotlin/com/nasller/codeglance/panel/AbstractGlancePanel.kt:142-144 | no colour exactly when the stripe colour, background and foreground are all missing |
| `GlancePanel.DrawMarkupLine` | src/main/kotlin/com/nasller/codeglance/panel/AbstractGlancePanel.kt:141-169 | nothing is drawn without a colour, otherwise the first non-null colour is used; the start row never lies below the end row for ordered lines; a single-row marker starts at most at width − minGap and, when compensated, is widened to exactly minGap and fits the panel; a collapsed start gives one half-width row; a multi-row marker fills the first-row tail, the last-row head and, between them, a block from the row after the start to the end row |
| `GlancePanel.RowOrder` | src/main/kotlin/com/nasller/codeglance/panel/AbstractGlancePanel.kt:149-151 | ordered lines give ordered rows, and distinct rows lie at least one line height apart |

## Left out

- Graphics2D compositing, `drawImage` scaling, the 0.8-opacity blend and the CLEAR/SRC_OVER composites. This is floating-point rendering through a library. `Paint` reports what it would draw (`PaintResult`) instead of drawing it.
- Pixel alpha is kept as an exact fraction. The raster's `× 0xFF` scaling, the float-to-byte truncation and the float rounding of the weight products (0.8 × 0.6 and so on) are not modelled. RGB components stay opaque.
- `getTopWeight` / `getBottomWeight`: their table is not part of this model. The accurate mode takes them as the `weights` function of a `Scene`.
- Character codes are Dafny characters (Unicode scalar values), not UTF-16 code units.
- Cancellation inside a pass (`indicator.checkCanceled`) is not modelled. A cancellation is the outside event `OnCanceled`.
- The threading behind `scheduleWithWriteActionPriority`, `invokeLater` and `@Synchronized`. Scheduling is the `inFlight` count, and `invokeLater` is the `queuedUpdates` count.
- The end of a successful pass: the lock release there is in the panel subclass, which is not part of this model.
- Listener registration, `refresh`, `dispose` and `paintLast`'s drawing. These are event wiring and Swing calls.
- The subclass paint hooks (`paintVcs`, `paintSelection`, `paintCaretPosition`, `paintErrorStripes`, `paintOtherHighlight`, `getDrawImage`, `computeInReadAction`), `ScrollBar` and `ScrollState.recomputeVisible`: their sources are not part of this model.
- `offsetToVisualPosition`, `offsetToLogicalPosition` and `isOffsetCollapsed` for markers are host services. `DrawMarkupLine` takes their results as inputs.
- EditorPanelInjector and CodeGlancePlugin (panel injection and reflective lookups) are not part of this model.
- Settings are fixed for each object's lifetime: `Minimap.config` and `Panel.config` are constants, while the program reads a live settings object that a settings change updates before it re-runs `updateImageSoon` on the same panel. So the model cannot show an image kept while wider than a new `config.width`, or a panel disabled while a pass is in flight.
- Fold regions are assumed to lie inside the document with start ≤ end (`FoldsWithin`) and to be listed by start offset with enclosing regions first (`FoldsOrdered`), as the host's folding model keeps them.
- A token that starts past the document would make the host's line lookup throw. The pass ends there instead (`PassEnd.LineLookupFailed`).
- `Paint` requires a non-empty panel, because `BufferedImage` rejects a zero size. `Minimap.Update` requires a positive width and line height (`ValidConfig`) for the same reason.
- `Minimap.ColorAt`, and through it `CharWrites`, `TokenWrites`, `TokenStep`, `Pass`, `PlotChar`, `DrawChar`, `RenderTokenChars`, `RenderToken`, `Rasterize` and `Minimap.Update`: a character whose token has no foreground is coloured with the intended lookup `GetColor`, not with getColor as written (see "Findings"). The two agree wherever the overlapping candidates have at most one distinct foreground (`AsWrittenAgreesOnSameForeground`). Where they do not, the pass as written would use the lowest-priority colour (`ColorAsWritten`).
- `Minimap.Rasterize`: the pass is stated as the reference function `Pass`. Properties of whole passes beyond those of its steps are not proved, for example that the rows drawn equal the lines less the folded ones. The row formula for one walk (`RowTracksLine`, `TokenWritesOnLineRow`) and the fold step (`CheckFold`) are proved separately.

## Findings

| source | as written | input that shows it | evidently intended | confidence | as-written member | corrected member |
|---|---|---|---|---|---|---|
| src/main/kotlin/com/nasller/codeglance/render/Minimap.kt:128-133 | `return@forEach` only ends the current lambda call, so the loop goes on and every later foreground overwrites `color`: the lowest-priority foreground wins | two valid highlighters covering the offset, on layers 0 and 1, with different foregrounds: the layer-0 colour is returned | the foreground of the highest-priority highlighter, the first in the sorted order | not executed | `Highlight.GetColorAsWritten`, `Highlight.LowerLayerWinsAsWritten` | `Highlight.GetColor`, `Highlight.HigherLayerWins` |
