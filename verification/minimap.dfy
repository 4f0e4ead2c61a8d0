/** The minimap rasterizer (render/Minimap.kt): one forward pass over the
    highlighter's tokens that walks a pixel cursor over the text, jumps over
    collapsed folds, resolves each character's colour and writes weighted
    pixels into a bitmap that is reallocated only when too small. */
module Minimap {
  import opened Editor
  import opened Highlight

  /** The settings the rasterizer reads. */
  datatype Config = Config(width: int, pixelsPerLine: int, clean: bool)

  /** A positive image width and line height; the host's settings keep
      `pixelsPerLine` between 1 and 4. */
  predicate ValidConfig(c: Config) {
    c.width >= 1 && c.pixelsPerLine >= 1
  }

  /** The scroll geometry shared by the rasterizer and the panel. */
  datatype ScrollState = ScrollState(
    visibleStart: int, visibleEnd: int, documentWidth: int, documentHeight: int, drawHeight: int)

  /** A token of the syntax highlighter: a text range and its foreground, if any. */
  datatype Token = Token(start: nat, end: nat, foreground: Option<Color>)

  /** What one pass reads from the host: the text, the token stream, the fold
      regions, the markup model, the scheme's default foreground and, for the
      accurate mode, the (top, bottom) ink weight of each character code. */
  datatype Scene = Scene(
    text: seq<char>, tokens: seq<Token>, folds: seq<FoldRegion>,
    markup: seq<Highlighter>, defaultForeground: Color, weights: int -> (real, real))

  predicate ValidScene(s: Scene) {
    FoldsWithin(s.folds, |s.text|) && FoldsOrdered(s.folds)
  }

  /** A raster pixel: colour and alpha as a fraction (the raster keeps it ×0xFF). */
  datatype Pixel = Pixel(rgb: int, alpha: real)

  /** What the CLEAR fill leaves behind. */
  const Transparent := Pixel(0, 0.0)

  // ---------------------------------------------------------------------------
  // Weights

  /** setPixel: the colour with its alpha replaced by the given weight, where a
      weight above 1 falls back to the colour's own alpha and a negative weight
      becomes 0. */
  function SetPixelValue(color: Color, alpha: real): (p: Pixel)
    ensures p.rgb == color.rgb
    ensures ValidColor(color) ==> 0.0 <= p.alpha <= 1.0
    ensures 0.0 <= alpha <= 1.0 ==> p.alpha == alpha
    ensures alpha > 1.0 ==> p.alpha == color.alpha
    ensures alpha < 0.0 ==> p.alpha == 0.0
  {
    Pixel(color.rgb, if alpha > 1.0 then color.alpha else if alpha < 0.0 then 0.0 else alpha)
  }

  /** renderClean's weight by character class: blanks and control characters
      0, printable ASCII 0.8, everything else 0.4. */
  function CleanWeight(code: int): (w: real)
    requires code >= 0
    ensures w == 0.0 <==> code <= 32
    ensures 0.0 <= w <= 0.8
  {
    if code <= 32 then 0.0 else if code <= 126 then 0.8 else 0.4
  }

  /** One sub-pixel write for a character: its row below the cell's top row
      and its alpha. */
  datatype SubPixel = SubPixel(dy: int, alpha: real)

  /** The setPixel calls renderClean makes for a character of weight `w`. */
  function CleanPlan(ppl: int, w: real): (plan: seq<SubPixel>)
    ensures plan == [] <==> w == 0.0 || ppl < 1 || ppl > 4
    ensures forall j :: 0 <= j < |plan| ==> 0 <= plan[j].dy <= ppl && (ppl > 1 ==> plan[j].dy < ppl)
    ensures ppl == 4 ==> forall j :: 0 <= j < |plan| ==> plan[j].dy >= 1
    ensures 0.0 < w <= 0.8 ==> forall j :: 0 <= j < |plan| ==> 0.0 < plan[j].alpha <= 0.48
  {
    if w == 0.0 then []
    else if ppl == 1 then [SubPixel(1, w * 0.6)]
    else if ppl == 2 then [SubPixel(0, w * 0.3), SubPixel(1, w * 0.6)]
    else if ppl == 3 then [SubPixel(0, w * 0.1), SubPixel(1, w * 0.6), SubPixel(2, w * 0.6)]
    else if ppl == 4 then [SubPixel(1, w * 0.6), SubPixel(2, w * 0.6), SubPixel(3, w * 0.6)]
    else []
  }

  /** The setPixel calls renderAccurate makes for top and bottom weights. */
  function AccuratePlan(ppl: int, top: real, bottom: real): (plan: seq<SubPixel>)
    ensures plan == [] <==> (top == 0.0 && bottom == 0.0) || ppl < 1 || ppl > 4
    ensures forall j :: 0 <= j < |plan| ==> 0 <= plan[j].dy <= ppl && (ppl > 1 ==> plan[j].dy < ppl)
    ensures ppl == 4 ==> forall j :: 0 <= j < |plan| ==> plan[j].dy >= 1
  {
    if top == 0.0 && bottom == 0.0 then []
    else if ppl == 1 then [SubPixel(1, (top + bottom) / 2.0)]
    else if ppl == 2 then [SubPixel(0, top * 0.5), SubPixel(1, bottom)]
    else if ppl == 3 then [SubPixel(0, top * 0.3), SubPixel(1, (top + bottom) / 2.0), SubPixel(2, bottom * 0.7)]
    else if ppl == 4 then [SubPixel(1, top), SubPixel(2, (top + bottom) / 2.0), SubPixel(3, bottom)]
    else []
  }

  /** The writes for character `c` in the configured mode. */
  function PlanFor(cfg: Config, c: char, weights: int -> (real, real)): (plan: seq<SubPixel>)
    ensures cfg.clean && 1 <= cfg.pixelsPerLine <= 4 ==> (plan == [] <==> c as int <= 32)
    ensures forall j :: 0 <= j < |plan| ==>
              0 <= plan[j].dy <= cfg.pixelsPerLine && (cfg.pixelsPerLine > 1 ==> plan[j].dy < cfg.pixelsPerLine)
  {
    if cfg.clean then CleanPlan(cfg.pixelsPerLine, CleanWeight(c as int))
    else AccuratePlan(cfg.pixelsPerLine, weights(c as int).0, weights(c as int).1)
  }

  // ---------------------------------------------------------------------------
  // Cursor

  /** The pixel cursor: column and row. */
  datatype Cursor = Cursor(x: int, y: int)

  /** Advancing over one character: a line feed goes to column 0 of the next
      row of `ppl` pixels, a tab moves 4 columns, anything else 1 column. */
  function Step(cur: Cursor, c: char, ppl: int): (r: Cursor)
    ensures c == '\n' ==> r.x == 0 && r.y == cur.y + ppl
    ensures c != '\n' ==> r.x == cur.x + CharColumns(c) && r.y == cur.y
  {
    if c == '\n' then Cursor(0, cur.y + ppl)
    else if c == '\t' then Cursor(cur.x + 4, cur.y)
    else Cursor(cur.x + 1, cur.y)
  }

  /** Advancing over a whole string. */
  function Walk(cur: Cursor, s: seq<char>, ppl: int): Cursor {
    if s == [] then cur else Step(Walk(cur, s[..|s| - 1], ppl), s[|s| - 1], ppl)
  }

  /** The columns a character takes: 4 for a tab, 1 for anything else. */
  function CharColumns(c: char): nat {
    if c == '\t' then 4 else 1
  }

  /** The width in columns of a string without line feeds. */
  function Columns(s: seq<char>): nat {
    if s == [] then 0 else Columns(s[..|s| - 1]) + CharColumns(s[|s| - 1])
  }

  /** Extending a slice of `text` by one character extends its width by
      that character's columns. */
  lemma ColumnsStep(text: seq<char>, a: nat, i: nat)
    requires a <= i < |text|
    ensures Columns(text[a..i + 1]) == Columns(text[a..i]) + CharColumns(text[i])
  {
    assert text[a..i + 1][..i - a] == text[a..i];
  }

  /** Extending a slice of `text` by one character advances the walk over it
      by one step. */
  lemma WalkStep(cur: Cursor, text: seq<char>, a: nat, i: nat, ppl: int)
    requires a <= i < |text|
    ensures Walk(cur, text[a..i + 1], ppl) == Step(Walk(cur, text[a..i], ppl), text[i], ppl)
  {
    assert text[a..i + 1][..i - a] == text[a..i];
  }

  /** The cursor moves down one row per line feed it passes. */
  lemma {:induction false} WalkRows(cur: Cursor, s: seq<char>, ppl: int)
    ensures Walk(cur, s, ppl).y == cur.y + ppl * Newlines(s)
    decreases |s|
  {
    if s != [] {
      WalkRows(cur, s[..|s| - 1], ppl);
      var n := Newlines(s[..|s| - 1]);
      assert ppl * (n + 1) == ppl * n + ppl;
    }
  }

  /** Within one line the cursor moves right by the line's width in columns. */
  lemma {:induction false} WalkColumns(cur: Cursor, s: seq<char>, ppl: int)
    requires forall j :: 0 <= j < |s| ==> s[j] != '\n'
    ensures Walk(cur, s, ppl) == Cursor(cur.x + Columns(s), cur.y)
    decreases |s|
  {
    if s != [] {
      WalkColumns(cur, s[..|s| - 1], ppl);
    }
  }

  /** A pass that starts a token on row (line − foldedLines) · ppl keeps that
      relation: after walking to offset `b` the row is (line(b) − foldedLines) · ppl. */
  lemma RowTracksLine(text: seq<char>, a: nat, b: nat, x: int, foldedLines: int, ppl: int)
    requires a <= b <= |text|
    ensures Walk(Cursor(x, (LineOf(text, a) - foldedLines) * ppl), text[a..b], ppl).y
            == (LineOf(text, b) - foldedLines) * ppl
  {
    WalkRows(Cursor(x, (LineOf(text, a) - foldedLines) * ppl), text[a..b], ppl);
    LinesBetween(text, a, b);
    var n := Newlines(text[a..b]);
    assert (LineOf(text, a) - foldedLines) * ppl + ppl * n == (LineOf(text, a) + n - foldedLines) * ppl;
  }

  // ---------------------------------------------------------------------------
  // Folds

  /** The pass jumps at offset `i` exactly when the collapsed region there is
      not a custom one and has non-negative offsets. */
  predicate FoldJumpsAt(folds: seq<FoldRegion>, i: int) {
    match CollapsedRegionAt(folds, i)
    case Some(f) => !f.custom && f.start >= 0 && f.end >= 0
    case None => false
  }

  /** The effect of the `checkFold` closure: whether it jumped, the new offset
      and the new count of folded lines. */
  datatype FoldStep = FoldStep(folded: bool, i: int, foldedLines: int)

  function CheckFold(text: seq<char>, folds: seq<FoldRegion>, i: nat, foldedLines: int): (r: FoldStep)
    requires FoldsWithin(folds, |text|)
    ensures r.folded <==> FoldJumpsAt(folds, i)
    ensures r.folded ==> i < r.i <= |text| && r.i == CollapsedRegionAt(folds, i).value.end
    ensures r.folded ==> r.foldedLines == foldedLines + FoldSpan(text, CollapsedRegionAt(folds, i).value)
    ensures r.foldedLines >= foldedLines
    ensures !r.folded ==> r.i == i && r.foldedLines == foldedLines
  {
    match CollapsedRegionAt(folds, i)
    case Some(f) =>
      if !f.custom && f.start >= 0 && f.end >= 0 then
        assert f.start <= f.end <= |text| by {
          var k :| 0 <= k < |folds| && folds[k] == f;
        }
        FoldStep(true, f.end, foldedLines + FoldSpan(text, f))
      else FoldStep(false, i, foldedLines)
    case None => FoldStep(false, i, foldedLines)
  }

  // ---------------------------------------------------------------------------
  // The record of writes

  /** One setPixel call: the pixel written, the character offset and token it
      was drawn for, the cursor row `cellY` of that character and which of the
      character's writes it is. */
  datatype Write = Write(col: int, row: int, px: Pixel, offset: nat, token: nat, cellY: int, step: nat)

  /** The colour of a character: its token's foreground, else the
      highest-priority markup foreground (`GetColor`, the intended lookup).
      It differs from getColor as written only where candidates with
      different foregrounds overlap the character. */
  function ColorAt(scene: Scene, k: nat, offset: nat): (c: Color)
    requires k < |scene.tokens|
    ensures scene.tokens[k].foreground.Some? ==> c == scene.tokens[k].foreground.value
    ensures scene.tokens[k].foreground.None? && SameForeground(scene.markup, offset) ==>
              c == ColorAsWritten(scene.markup, offset, scene.defaultForeground)
  {
    match scene.tokens[k].foreground
    case Some(c) => c
    case None =>
      if SameForeground(scene.markup, offset) then
        AsWrittenAgreesOnSameForeground(scene.markup, offset, scene.defaultForeground);
        GetColor(scene.markup, offset, scene.defaultForeground)
      else GetColor(scene.markup, offset, scene.defaultForeground)
  }

  /** The bounds check a cursor position must pass before a character is
      drawn there. */
  predicate InBounds(cur: Cursor, ppl: int, width: int, height: int) {
    0 <= cur.x < width && 0 <= cur.y && cur.y + ppl < height
  }

  /** The setPixel calls for character `i` of token `k` drawn with the cursor
      at `cur`: one per entry of the character's plan, at column `cur.x` and
      row `cur.y + dy`. */
  function CharWrites(scene: Scene, cfg: Config, k: nat, i: nat, cur: Cursor): (ws: seq<Write>)
    requires k < |scene.tokens| && i < |scene.text|
    ensures |ws| == |PlanFor(cfg, scene.text[i], scene.weights)|
  {
    var plan := PlanFor(cfg, scene.text[i], scene.weights);
    var color := ColorAt(scene, k, i);
    seq(|plan|, j requires 0 <= j < |plan| =>
      Write(cur.x, cur.y + plan[j].dy, SetPixelValue(color, plan[j].alpha), i, k, cur.y, j))
  }

  /** The writes of token `k` for the characters i0 .. j-1, walked from
      `cur0`: each character is drawn with the cursor it has after its own
      advance, when that position passes the bounds check. */
  function TokenWrites(scene: Scene, cfg: Config, k: nat, i0: nat, j: nat, cur0: Cursor,
                       width: int, height: int): seq<Write>
    requires k < |scene.tokens| && i0 <= j <= |scene.text|
    decreases j - i0
  {
    if j == i0 then []
    else
      var cur := Walk(cur0, scene.text[i0..j], cfg.pixelsPerLine);
      TokenWrites(scene, cfg, k, i0, j - 1, cur0, width, height)
        + if InBounds(cur, cfg.pixelsPerLine, width, height) then CharWrites(scene, cfg, k, j - 1, cur) else []
  }

  /** Write `w` is for a character of token `k` at or after offset i0, on
      the row of the line that character ends, less the folded lines, and at
      the column the walk from `cur0` reaches after it. */
  ghost predicate OnLineRow(w: Write, text: seq<char>, k: nat, i0: nat, cur0: Cursor,
                            foldedLines: int, ppl: int) {
    && i0 <= w.offset < |text| && w.token == k
    && w.cellY == (LineOf(text, w.offset + 1) - foldedLines) * ppl
    && w.col == Walk(cur0, text[i0..w.offset + 1], ppl).x
  }

  /** Every write of `ws` is before offset j and satisfies `OnLineRow`. */
  ghost predicate AllOnLineRow(ws: seq<Write>, text: seq<char>, k: nat, i0: nat, j: int, cur0: Cursor,
                               foldedLines: int, ppl: int) {
    forall n :: 0 <= n < |ws| ==> ws[n].offset < j && OnLineRow(ws[n], text, k, i0, cur0, foldedLines, ppl)
  }

  /** The writes of character j − 1 of a token walked from `cur0` lie on the
      row of the line that character ends. */
  lemma LastCharOnLineRow(scene: Scene, cfg: Config, k: nat, i0: nat, j: nat, cur0: Cursor, foldedLines: int)
    requires k < |scene.tokens| && i0 < j <= |scene.text|
    requires cur0.y == (LineOf(scene.text, i0) - foldedLines) * cfg.pixelsPerLine
    ensures AllOnLineRow(CharWrites(scene, cfg, k, j - 1, Walk(cur0, scene.text[i0..j], cfg.pixelsPerLine)),
                         scene.text, k, i0, j, cur0, foldedLines, cfg.pixelsPerLine)
  {
    var ppl := cfg.pixelsPerLine;
    var cur := Walk(cur0, scene.text[i0..j], ppl);
    RowTracksLine(scene.text, i0, j, cur0.x, foldedLines, ppl);
    CharWritesShape(scene, cfg, k, j - 1, cur);
    var ws := CharWrites(scene, cfg, k, j - 1, cur);
    forall n | 0 <= n < |ws|
      ensures ws[n].offset < j && OnLineRow(ws[n], scene.text, k, i0, cur0, foldedLines, ppl)
    {
      assert ws[n].offset + 1 == j && ws[n].cellY == cur.y && ws[n].col == cur.x;
    }
  }

  /** Writes before offset j − 1 followed by writes before offset j are all
      before offset j. */
  lemma AllOnLineRowConcat(a: seq<Write>, b: seq<Write>, text: seq<char>, k: nat, i0: nat, j: int, cur0: Cursor,
                           foldedLines: int, ppl: int)
    requires AllOnLineRow(a, text, k, i0, j - 1, cur0, foldedLines, ppl)
    requires AllOnLineRow(b, text, k, i0, j, cur0, foldedLines, ppl)
    ensures AllOnLineRow(a + b, text, k, i0, j, cur0, foldedLines, ppl)
  {
    forall n | 0 <= n < |a + b|
      ensures (a + b)[n].offset < j && OnLineRow((a + b)[n], text, k, i0, cur0, foldedLines, ppl)
    {
      if n < |a| {
        assert (a + b)[n] == a[n];
      } else {
        assert (a + b)[n] == b[n - |a|];
      }
    }
  }

  /** Every character of a token that starts on the row of its line is drawn
      on the row of the line it ends, less the folded lines. */
  lemma {:induction false} TokenWritesOnLineRow(scene: Scene, cfg: Config, k: nat, i0: nat, j: nat,
                                                cur0: Cursor, width: int, height: int, foldedLines: int)
    requires k < |scene.tokens| && i0 <= j <= |scene.text|
    requires cur0.y == (LineOf(scene.text, i0) - foldedLines) * cfg.pixelsPerLine
    ensures AllOnLineRow(TokenWrites(scene, cfg, k, i0, j, cur0, width, height), scene.text, k, i0, j, cur0,
                         foldedLines, cfg.pixelsPerLine)
    decreases j - i0
  {
    if j > i0 {
      var ppl := cfg.pixelsPerLine;
      var cur := Walk(cur0, scene.text[i0..j], ppl);
      var prev := TokenWrites(scene, cfg, k, i0, j - 1, cur0, width, height);
      TokenWritesOnLineRow(scene, cfg, k, i0, j - 1, cur0, width, height, foldedLines);
      var last: seq<Write> := [];
      if InBounds(cur, ppl, width, height) {
        last := CharWrites(scene, cfg, k, j - 1, cur);
        LastCharOnLineRow(scene, cfg, k, i0, j, cur0, foldedLines);
      }
      assert TokenWrites(scene, cfg, k, i0, j, cur0, width, height) == prev + last;
      AllOnLineRowConcat(prev, last, scene.text, k, i0, j, cur0, foldedLines, ppl);
    }
  }

  /** What every write of the pass satisfies: it is for a character inside the
      text that no fold hides, inside the range of the token drawing it, with
      a cell row `cellY` and column that pass the bounds check, and it is one
      of that character's weighted writes in that character's colour. */
  ghost predicate WriteOk(w: Write, scene: Scene, cfg: Config, width: int, height: int) {
    && w.offset < |scene.text|
    && !FoldJumpsAt(scene.folds, w.offset)
    && w.token < |scene.tokens| && w.offset < scene.tokens[w.token].end
    && 0 <= w.col < width && 0 <= w.cellY && w.cellY + cfg.pixelsPerLine < height
    && var plan := PlanFor(cfg, scene.text[w.offset], scene.weights);
       && w.step < |plan|
       && w.row == w.cellY + plan[w.step].dy
       && w.px == SetPixelValue(ColorAt(scene, w.token, w.offset), plan[w.step].alpha)
  }

  ghost predicate AllOk(log: seq<Write>, scene: Scene, cfg: Config, width: int, height: int) {
    forall j :: 0 <= j < |log| ==> WriteOk(log[j], scene, cfg, width, height)
  }

  /** The pixel at (c, r) after the writes of `log` on a cleared image. */
  ghost function Painted(log: seq<Write>, c: int, r: int): Pixel {
    if log == [] then Transparent
    else if log[|log| - 1].col == c && log[|log| - 1].row == r then log[|log| - 1].px
    else Painted(log[..|log| - 1], c, r)
  }

  ghost predicate Shows(img: array2<Pixel>, log: seq<Write>)
    reads img
  {
    forall c, r :: 0 <= c < img.Length0 && 0 <= r < img.Length1 ==> img[c, r] == Painted(log, c, r)
  }

  /** Every write lands inside the image. */
  lemma WritesInsideImage(log: seq<Write>, scene: Scene, cfg: Config, width: int, height: int)
    requires AllOk(log, scene, cfg, width, height)
    ensures forall j :: 0 <= j < |log| ==> 0 <= log[j].col < width && 0 <= log[j].row < height
  {
  }

  /** Clean mode never writes for a blank or control character. */
  lemma CleanSkipsBlanks(log: seq<Write>, scene: Scene, cfg: Config, width: int, height: int)
    requires AllOk(log, scene, cfg, width, height)
    requires cfg.clean && 1 <= cfg.pixelsPerLine <= 4
    ensures forall j :: 0 <= j < |log| ==> scene.text[log[j].offset] as int > 32
  {
  }

  /** The writes for one character all carry its offset, its token and the
      cursor they were drawn at. */
  lemma CharWritesShape(scene: Scene, cfg: Config, k: nat, i: nat, cur: Cursor)
    requires k < |scene.tokens| && i < |scene.text|
    ensures forall n :: 0 <= n < |CharWrites(scene, cfg, k, i, cur)| ==>
              var w := CharWrites(scene, cfg, k, i, cur)[n];
              w.offset == i && w.token == k && w.cellY == cur.y && w.col == cur.x
  {
  }

  /** Drawing a character that no fold hides, inside its token, at a cursor
      that passes the bounds check, makes only writes that satisfy `WriteOk`. */
  lemma CharWritesOk(scene: Scene, cfg: Config, k: nat, i: nat, cur: Cursor, width: int, height: int)
    requires ValidConfig(cfg)
    requires k < |scene.tokens| && i < |scene.text| && i < scene.tokens[k].end
    requires !FoldJumpsAt(scene.folds, i)
    requires InBounds(cur, cfg.pixelsPerLine, width, height)
    ensures AllOk(CharWrites(scene, cfg, k, i, cur), scene, cfg, width, height)
  {
  }

  /** Two logs of valid writes make a log of valid writes. */
  lemma AllOkConcat(a: seq<Write>, b: seq<Write>, scene: Scene, cfg: Config, width: int, height: int)
    requires AllOk(a, scene, cfg, width, height) && AllOk(b, scene, cfg, width, height)
    ensures AllOk(a + b, scene, cfg, width, height)
  {
    forall j | 0 <= j < |a + b|
      ensures WriteOk((a + b)[j], scene, cfg, width, height)
    {
      if j >= |a| {
        assert (a + b)[j] == b[j - |a|];
      }
    }
  }

  // ---------------------------------------------------------------------------
  // The steps of the pass as functions

  /** Where the pre-loop of a new line leaves the column, the offset and the
      folded-line count, and the offset `stop` where it stopped counting. */
  datatype Prefix = Prefix(x: int, i: nat, folded: int, stop: nat)

  /** The pre-loop from offset `i` of the line starting at `lineStart`, with
      the column at `x`: it stops at the token start, at a fold jump (taking
      it), or right after the column passes `width`. */
  function LinePrefix(text: seq<char>, folds: seq<FoldRegion>, lineStart: nat, tokenStart: nat, width: int,
                      i: nat, x: int, folded: int): (p: Prefix)
    requires FoldsWithin(folds, |text|)
    requires i <= tokenStart <= |text|
    ensures i <= p.stop <= tokenStart && p.i <= |text|
    decreases tokenStart - i
  {
    if i == tokenStart then Prefix(x, i, folded, i)
    else
      var step := CheckFold(text, folds, i, folded);
      if step.folded then Prefix(x, step.i, step.foldedLines, i)
      else
        var next := x + CharColumns(text[i]);
        if next > width then Prefix(next, i + 1, folded, i + 1)
        else LinePrefix(text, folds, lineStart, tokenStart, width, i + 1, next, folded)
  }

  /** The column the pre-loop ends at is the width of the characters from
      the line start to where it stopped. */
  lemma {:induction false} LinePrefixColumns(text: seq<char>, folds: seq<FoldRegion>, lineStart: nat,
                                             tokenStart: nat, width: int, i: nat, x: int, folded: int)
    requires FoldsWithin(folds, |text|)
    requires lineStart <= i <= tokenStart <= |text|
    requires x == Columns(text[lineStart..i])
    ensures var p := LinePrefix(text, folds, lineStart, tokenStart, width, i, x, folded);
            p.x == Columns(text[lineStart..p.stop])
    decreases tokenStart - i
  {
    if i < tokenStart && !CheckFold(text, folds, i, folded).folded {
      ColumnsStep(text, lineStart, i);
      var next := x + CharColumns(text[i]);
      if next <= width {
        LinePrefixColumns(text, folds, lineStart, tokenStart, width, i + 1, next, folded);
      }
    }
  }

  /** The pre-loop takes no fold jump before the offset it stops at. */
  lemma {:induction false} LinePrefixNoFoldBeforeStop(text: seq<char>, folds: seq<FoldRegion>, lineStart: nat,
                                                      tokenStart: nat, width: int, i: nat, x: int, folded: int)
    requires FoldsWithin(folds, |text|)
    requires i <= tokenStart <= |text|
    ensures forall j :: i <= j < LinePrefix(text, folds, lineStart, tokenStart, width, i, x, folded).stop ==>
              !FoldJumpsAt(folds, j)
    decreases tokenStart - i
  {
    if i < tokenStart && !CheckFold(text, folds, i, folded).folded {
      var next := x + CharColumns(text[i]);
      if next <= width {
        LinePrefixNoFoldBeforeStop(text, folds, lineStart, tokenStart, width, i + 1, next, folded);
      }
    }
  }

  /** Where the pre-loop stops: at the token start or right after the column
      passes `width`, taking no jump and keeping the folded lines, or at a
      fold jump whose offset and folded-line count it takes. */
  lemma {:induction false} LinePrefixStops(text: seq<char>, folds: seq<FoldRegion>, lineStart: nat,
                                           tokenStart: nat, width: int, i: nat, x: int, folded: int)
    requires FoldsWithin(folds, |text|)
    requires i <= tokenStart <= |text|
    ensures var p := LinePrefix(text, folds, lineStart, tokenStart, width, i, x, folded);
            && p.folded >= folded
            && (|| (p.i == p.stop && p.folded == folded && (p.stop < tokenStart ==> p.x > width))
                || (FoldJumpsAt(folds, p.stop)
                    && p.i == CheckFold(text, folds, p.stop, folded).i
                    && p.folded == CheckFold(text, folds, p.stop, folded).foldedLines))
    decreases tokenStart - i
  {
    if i < tokenStart && !CheckFold(text, folds, i, folded).folded {
      var next := x + CharColumns(text[i]);
      if next <= width {
        LinePrefixStops(text, folds, lineStart, tokenStart, width, i + 1, next, folded);
      }
    }
  }

  /** The pre-loop counts at most one character past `width`: starting
      inside the width, it ends inside it, or right after the character that
      took the column past it, at whose start the column still fitted. */
  lemma {:induction false} LinePrefixWidth(text: seq<char>, folds: seq<FoldRegion>, lineStart: nat,
                                           tokenStart: nat, width: int, i: nat, x: int, folded: int)
    requires FoldsWithin(folds, |text|)
    requires i <= tokenStart <= |text|
    requires x <= width
    ensures var p := LinePrefix(text, folds, lineStart, tokenStart, width, i, x, folded);
            || p.x <= width
            || (i < p.stop && p.i == p.stop && p.x - CharColumns(text[p.stop - 1]) <= width)
    decreases tokenStart - i
  {
    if i < tokenStart && !CheckFold(text, folds, i, folded).folded && x + CharColumns(text[i]) <= width {
      LinePrefixWidth(text, folds, lineStart, tokenStart, width, i + 1, x + CharColumns(text[i]), folded);
    }
  }

  /** Where the main loop over a token leaves the offset, the cursor and the
      folded-line count, whether it ran past the document, and the offset it
      stopped scanning at. */
  datatype Scan = Scan(i: nat, cur: Cursor, folded: int, pastEnd: bool, scanned: nat)

  /** The main loop from offset `i` of a token whose characters from `i0` on
      are walked from `cur0`: it stops at the token end, at a fold jump
      (taking it) or at the end of a document the token reaches past; the
      cursor is the walk over the characters scanned. */
  function TokenScan(text: seq<char>, folds: seq<FoldRegion>, ppl: int, tokenEnd: nat, i0: nat, cur0: Cursor,
                     i: nat, folded: int): (s: Scan)
    requires FoldsWithin(folds, |text|) && i0 <= i <= |text|
    ensures i <= s.scanned <= |text| && s.i <= |text|
    ensures s.cur == Walk(cur0, text[i0..s.scanned], ppl)
    ensures s.folded >= folded
    ensures s.pastEnd ==> s.scanned == |text| < tokenEnd
    ensures !s.pastEnd ==> || (s.i == s.scanned >= tokenEnd && s.folded == folded)
                           || (FoldJumpsAt(folds, s.scanned)
                               && s.i == CheckFold(text, folds, s.scanned, folded).i
                               && s.folded == CheckFold(text, folds, s.scanned, folded).foldedLines)
    decreases |text| - i
  {
    var cur := Walk(cur0, text[i0..i], ppl);
    if i >= tokenEnd then Scan(i, cur, folded, false, i)
    else
      var step := CheckFold(text, folds, i, folded);
      if step.folded then Scan(step.i, cur, step.foldedLines, false, i)
      else if i == |text| then Scan(i, cur, folded, true, i)
      else TokenScan(text, folds, ppl, tokenEnd, i0, cur0, i + 1, folded)
  }

  /** The main loop takes no fold jump before the offset it stops at. */
  lemma {:induction false} TokenScanNoFoldBeforeStop(text: seq<char>, folds: seq<FoldRegion>, ppl: int, tokenEnd: nat,
                                                     i0: nat, cur0: Cursor, i: nat, folded: int)
    requires FoldsWithin(folds, |text|) && i0 <= i <= |text|
    ensures forall j :: i <= j < TokenScan(text, folds, ppl, tokenEnd, i0, cur0, i, folded).scanned ==>
              !FoldJumpsAt(folds, j)
    decreases |text| - i
  {
    if i < tokenEnd && i < |text| && !CheckFold(text, folds, i, folded).folded {
      TokenScanNoFoldBeforeStop(text, folds, ppl, tokenEnd, i0, cur0, i + 1, folded);
    }
  }

  /** The first token from index m on that starts at or after offset `i`. */
  function NextTokenFrom(tokens: seq<Token>, m: nat, i: int): (next: nat)
    requires m <= |tokens|
    ensures m <= next <= |tokens|
    decreases |tokens| - m
  {
    if m < |tokens| && tokens[m].start < i then NextTokenFrom(tokens, m + 1, i) else m
  }

  /** Where the main loop of a token starts: on a new row, where the
      pre-loop from the line start stops; otherwise at the token start with
      the column carried over from the previous token. */
  function LineEntry(text: seq<char>, folds: seq<FoldRegion>, cfg: Config, tokenStart: nat,
                     x: int, prevY: int, folded: int): (p: Prefix)
    requires FoldsWithin(folds, |text|) && tokenStart <= |text|
    ensures p.i <= |text|
  {
    var lineStart := LineStartOf(text, tokenStart);
    if (LineOf(text, tokenStart) - folded) * cfg.pixelsPerLine != prevY
    then LinePrefix(text, folds, lineStart, tokenStart, cfg.width, lineStart, 0, folded)
    else Prefix(x, tokenStart, folded, tokenStart)
  }

  /** How a pass ended: all tokens done, a token reaching past the document,
      or a token starting past the document (where the host's line lookup
      throws). */
  datatype PassEnd = Finished | PastDocumentEnd | LineLookupFailed

  /** What the token walk carries from one token to the next: the token
      index, the column, the row of the previous token and the folded lines. */
  datatype PassState = PassState(k: nat, x: int, prevY: int, folded: int)

  /** What one token does to the pass: it either hands a state to the next
      token or ends the pass, and it makes some writes either way. */
  datatype TokenOutcome = Next(st: PassState, writes: seq<Write>) | Stop(end: PassEnd, writes: seq<Write>)

  /** One iteration of the token walk over a `width` × `height` image: the
      row of the token's line less the folded lines; on a new row the
      pre-loop from the line start, otherwise the column carried over; the
      main loop and its writes; then the next token that starts at or after
      the offset reached. */
  function TokenStep(scene: Scene, cfg: Config, width: int, height: int, st: PassState): (r: TokenOutcome)
    requires ValidScene(scene) && st.k < |scene.tokens|
    ensures r.Next? ==> st.k < r.st.k
  {
    var text := scene.text;
    var token := scene.tokens[st.k];
    if token.start > |text| then Stop(LineLookupFailed, [])
    else
      var y := (LineOf(text, token.start) - st.folded) * cfg.pixelsPerLine;
      var p := LineEntry(text, scene.folds, cfg, token.start, st.x, st.prevY, st.folded);
      var s := TokenScan(text, scene.folds, cfg.pixelsPerLine, token.end, p.i, Cursor(p.x, y), p.i, p.folded);
      var writes := TokenWrites(scene, cfg, st.k, p.i, s.scanned, Cursor(p.x, y), width, height);
      if s.pastEnd then Stop(PastDocumentEnd, writes)
      else Next(PassState(NextTokenFrom(scene.tokens, st.k + 1, s.i), s.cur.x, s.cur.y, s.folded), writes)
  }

  /** `TokenStep` for a token that starts inside the document, in terms of
      its row `y`, its entry `p` and its scan `s`. */
  lemma TokenStepIs(scene: Scene, cfg: Config, width: int, height: int, st: PassState, y: int, p: Prefix, s: Scan)
    requires ValidScene(scene) && st.k < |scene.tokens| && scene.tokens[st.k].start <= |scene.text|
    requires y == (LineOf(scene.text, scene.tokens[st.k].start) - st.folded) * cfg.pixelsPerLine
    requires p == LineEntry(scene.text, scene.folds, cfg, scene.tokens[st.k].start, st.x, st.prevY, st.folded)
    requires s == TokenScan(scene.text, scene.folds, cfg.pixelsPerLine, scene.tokens[st.k].end, p.i, Cursor(p.x, y),
                            p.i, p.folded)
    ensures TokenStep(scene, cfg, width, height, st).writes
            == TokenWrites(scene, cfg, st.k, p.i, s.scanned, Cursor(p.x, y), width, height)
    ensures TokenStep(scene, cfg, width, height, st).Stop? == s.pastEnd
    ensures s.pastEnd ==> TokenStep(scene, cfg, width, height, st).end == PastDocumentEnd
    ensures !s.pastEnd ==> TokenStep(scene, cfg, width, height, st).st
                           == PassState(NextTokenFrom(scene.tokens, st.k + 1, s.i), s.cur.x, s.cur.y, s.folded)
  {
  }

  /** The rest of a pass from state `st`: how it ends and the writes it
      makes, token by token. */
  function PassFrom(scene: Scene, cfg: Config, width: int, height: int, st: PassState): (PassEnd, seq<Write>)
    requires ValidScene(scene)
    decreases |scene.tokens| - st.k
  {
    if st.k >= |scene.tokens| then (Finished, [])
    else
      match TokenStep(scene, cfg, width, height, st)
      case Stop(end, writes) => (end, writes)
      case Next(next, writes) =>
        var rest := PassFrom(scene, cfg, width, height, next);
        (rest.0, writes + rest.1)
  }

  lemma PassFromStop(scene: Scene, cfg: Config, width: int, height: int, st: PassState)
    requires ValidScene(scene) && st.k < |scene.tokens|
    requires TokenStep(scene, cfg, width, height, st).Stop?
    ensures PassFrom(scene, cfg, width, height, st)
            == (TokenStep(scene, cfg, width, height, st).end, TokenStep(scene, cfg, width, height, st).writes)
  {
  }

  lemma PassFromNext(scene: Scene, cfg: Config, width: int, height: int, st: PassState)
    requires ValidScene(scene) && st.k < |scene.tokens|
    requires TokenStep(scene, cfg, width, height, st).Next?
    ensures var next := TokenStep(scene, cfg, width, height, st).st;
            PassFrom(scene, cfg, width, height, st)
            == (PassFrom(scene, cfg, width, height, next).0,
                TokenStep(scene, cfg, width, height, st).writes + PassFrom(scene, cfg, width, height, next).1)
  {
  }

  /** Regrouping a record of writes; stated apart so that `Rasterize`'s
      loop does not search for it among its own facts. */
  lemma ConcatAssoc(a: seq<Write>, b: seq<Write>, c: seq<Write>)
    ensures a + (b + c) == (a + b) + c
  {
  }

  /** A whole pass: the first token, column 0, no previous row, nothing folded. */
  function Pass(scene: Scene, cfg: Config, width: int, height: int): (PassEnd, seq<Write>)
    requires ValidScene(scene)
  {
    PassFrom(scene, cfg, width, height, PassState(0, 0, -1, 0))
  }

  // ---------------------------------------------------------------------------
  // The pass

  /** The CLEAR fill over the whole image. */
  method ClearImage(img: array2<Pixel>)
    modifies img
    ensures forall c, r :: 0 <= c < img.Length0 && 0 <= r < img.Length1 ==> img[c, r] == Transparent
  {
    for c := 0 to img.Length0
      invariant forall c', r :: 0 <= c' < c && 0 <= r < img.Length1 ==> img[c', r] == Transparent
    {
      for r := 0 to img.Length1
        invariant forall c', r' :: 0 <= c' < c && 0 <= r' < img.Length1 ==> img[c', r'] == Transparent
        invariant forall r' :: 0 <= r' < r ==> img[c, r'] == Transparent
      {
        img[c, r] := Transparent;
      }
    }
  }

  /** renderClean / renderAccurate for one character whose cursor position
      passed the bounds check: its writes, one per entry of its plan. */
  method PlotChar(img: array2<Pixel>, cfg: Config, scene: Scene, k: nat, i: nat, x: int, y: int,
                  ghost log0: seq<Write>)
    returns (ghost log: seq<Write>)
    requires ValidConfig(cfg)
    requires k < |scene.tokens| && i < |scene.text| && i < scene.tokens[k].end
    requires !FoldJumpsAt(scene.folds, i)
    requires InBounds(Cursor(x, y), cfg.pixelsPerLine, img.Length0, img.Length1)
    requires Shows(img, log0) && AllOk(log0, scene, cfg, img.Length0, img.Length1)
    modifies img
    ensures log == log0 + CharWrites(scene, cfg, k, i, Cursor(x, y))
    ensures Shows(img, log) && AllOk(log, scene, cfg, img.Length0, img.Length1)
  {
    log := log0;
    var plan := PlanFor(cfg, scene.text[i], scene.weights);
    ghost var writes := CharWrites(scene, cfg, k, i, Cursor(x, y));
    CharWritesOk(scene, cfg, k, i, Cursor(x, y), img.Length0, img.Length1);
    AllOkConcat(log0, writes, scene, cfg, img.Length0, img.Length1);
    if plan == [] {
      assert log0 + writes == log0;
      return;
    }
    var color := ColorAt(scene, k, i);
    for j := 0 to |plan|
      invariant log == log0 + writes[..j]
      invariant Shows(img, log)
    {
      var w := Write(x, y + plan[j].dy, SetPixelValue(color, plan[j].alpha), i, k, y, j);
      assert w == writes[j];
      log := PutPixel(img, w, log);
      assert writes[..j + 1] == writes[..j] + [w];
    }
    assert writes[..|plan|] == writes;
  }

  /** One setPixel call on the image: the pixel at (w.col, w.row) becomes `w.px`. */
  method PutPixel(img: array2<Pixel>, w: Write, ghost log: seq<Write>) returns (ghost log': seq<Write>)
    requires 0 <= w.col < img.Length0 && 0 <= w.row < img.Length1
    requires Shows(img, log)
    modifies img
    ensures log' == log + [w] && Shows(img, log')
  {
    img[w.col, w.row] := w.px;
    log' := log + [w];
    assert log'[..|log'| - 1] == log;
  }

  /** The pre-loop of a new line: counts columns from the line start up to the
      token start, stopping at a fold jump or once the line is wider than
      `width`. */
  method ScanLinePrefix(text: seq<char>, folds: seq<FoldRegion>, lineStart: nat, tokenStart: nat,
                        foldedLines: int, width: int)
    returns (x: int, i: nat, folded: int, ghost stop: nat)
    requires FoldsWithin(folds, |text|)
    requires lineStart <= tokenStart <= |text|
    ensures var p := LinePrefix(text, folds, lineStart, tokenStart, width, lineStart, 0, foldedLines);
            x == p.x && i == p.i && folded == p.folded
    ensures Prefix(x, i, folded, stop) == LinePrefix(text, folds, lineStart, tokenStart, width, lineStart, 0, foldedLines)
  {
    x, i, folded := 0, lineStart, foldedLines;
    while i < tokenStart
      invariant lineStart <= i <= tokenStart
      invariant folded == foldedLines
      invariant LinePrefix(text, folds, lineStart, tokenStart, width, lineStart, 0, foldedLines)
                == LinePrefix(text, folds, lineStart, tokenStart, width, i, x, folded)
    {
      var step := CheckFold(text, folds, i, folded);
      if step.folded {
        stop := i;
        i, folded := step.i, step.foldedLines;
        return;
      }
      x, i := x + CharColumns(text[i]), i + 1;
      if x > width {
        stop := i;
        return;
      }
    }
    stop := i;
  }

  /** One character of the main loop: advance the cursor over character `i`
      of token `k` and draw it when the new position passes the bounds check. */
  method DrawChar(img: array2<Pixel>, cfg: Config, scene: Scene, k: nat, i0: nat, i: nat, ghost cur0: Cursor,
                  x: int, y: int, ghost log0: seq<Write>, ghost log: seq<Write>)
    returns (x': int, y': int, ghost log': seq<Write>)
    requires ValidConfig(cfg)
    requires k < |scene.tokens| && i0 <= i < |scene.text| && i < scene.tokens[k].end
    requires !FoldJumpsAt(scene.folds, i)
    requires Cursor(x, y) == Walk(cur0, scene.text[i0..i], cfg.pixelsPerLine)
    requires log == log0 + TokenWrites(scene, cfg, k, i0, i, cur0, img.Length0, img.Length1)
    requires Shows(img, log) && AllOk(log, scene, cfg, img.Length0, img.Length1)
    modifies img
    ensures Cursor(x', y') == Walk(cur0, scene.text[i0..i + 1], cfg.pixelsPerLine)
    ensures log' == log0 + TokenWrites(scene, cfg, k, i0, i + 1, cur0, img.Length0, img.Length1)
    ensures Shows(img, log') && AllOk(log', scene, cfg, img.Length0, img.Length1)
  {
    var text := scene.text;
    WalkStep(cur0, text, i0, i, cfg.pixelsPerLine);
    var next := Step(Cursor(x, y), text[i], cfg.pixelsPerLine);
    x', y', log' := next.x, next.y, log;
    if InBounds(next, cfg.pixelsPerLine, img.Length0, img.Length1) {
      log' := PlotChar(img, cfg, scene, k, i, x', y', log);
    }
  }

  /** The main loop over one token's characters, from offset `i0` with the
      cursor at (x0, y0): it scans as `TokenScan` does and draws each scanned
      character whose new cursor position passes the bounds check. */
  method RenderTokenChars(img: array2<Pixel>, cfg: Config, scene: Scene, k: nat, i0: nat,
                          x0: int, y0: int, foldedLines: int, ghost log0: seq<Write>)
    returns (i: nat, x: int, y: int, folded: int, pastEnd: bool, ghost scanned: nat, ghost log: seq<Write>)
    requires ValidConfig(cfg) && ValidScene(scene)
    requires k < |scene.tokens| && i0 <= |scene.text|
    requires Shows(img, log0) && AllOk(log0, scene, cfg, img.Length0, img.Length1)
    modifies img
    ensures Scan(i, Cursor(x, y), folded, pastEnd, scanned)
            == TokenScan(scene.text, scene.folds, cfg.pixelsPerLine, scene.tokens[k].end, i0, Cursor(x0, y0), i0, foldedLines)
    ensures log == log0 + TokenWrites(scene, cfg, k, i0, scanned, Cursor(x0, y0), img.Length0, img.Length1)
    ensures Shows(img, log) && AllOk(log, scene, cfg, img.Length0, img.Length1)
  {
    var text := scene.text;
    var ppl := cfg.pixelsPerLine;
    var tokenEnd := scene.tokens[k].end;
    ghost var cur0 := Cursor(x0, y0);
    i, x, y, folded, pastEnd, log := i0, x0, y0, foldedLines, false, log0;
    while i < tokenEnd
      invariant i0 <= i <= |text|
      invariant Cursor(x, y) == Walk(cur0, text[i0..i], ppl)
      invariant folded == foldedLines
      invariant TokenScan(text, scene.folds, ppl, tokenEnd, i0, cur0, i0, foldedLines)
                == TokenScan(text, scene.folds, ppl, tokenEnd, i0, cur0, i, folded)
      invariant log == log0 + TokenWrites(scene, cfg, k, i0, i, cur0, img.Length0, img.Length1)
      invariant Shows(img, log) && AllOk(log, scene, cfg, img.Length0, img.Length1)
    {
      var step := CheckFold(text, scene.folds, i, folded);
      if step.folded {
        scanned := i;
        i, folded := step.i, step.foldedLines;
        return;
      }
      // Tokens that extend past the document end the pass.
      if i >= |text| {
        scanned := i;
        pastEnd := true;
        return;
      }
      x, y, log := DrawChar(img, cfg, scene, k, i0, i, cur0, x, y, log0, log);
      i := i + 1;
    }
    scanned := i;
  }

  /** The do-while after a token: advance at least once, then past every token
      that starts before offset `i`. */
  method NextToken(tokens: seq<Token>, k: nat, i: int) returns (next: nat)
    requires k < |tokens|
    ensures next == NextTokenFrom(tokens, k + 1, i)
    ensures k < next <= |tokens|
    ensures forall m :: k < m < next ==> tokens[m].start < i
    ensures next < |tokens| ==> tokens[next].start >= i
  {
    next := k + 1;
    while next < |tokens| && tokens[next].start < i
      invariant k < next <= |tokens|
      invariant forall m :: k < m < next ==> tokens[m].start < i
      invariant NextTokenFrom(tokens, k + 1, i) == NextTokenFrom(tokens, next, i)
    {
      next := next + 1;
    }
  }

  predicate TokensWithin(tokens: seq<Token>, textLength: nat) {
    forall m :: 0 <= m < |tokens| ==> tokens[m].start <= textLength && tokens[m].end <= textLength
  }

  /** The start of a token: its row from its line less the folded lines; on a
      new row the pre-loop from the line start, otherwise the column carried
      over. */
  method StartToken(text: seq<char>, folds: seq<FoldRegion>, cfg: Config, tokenStart: nat,
                    x0: int, prevY: int, folded0: int)
    returns (x: int, y: int, i: nat, folded: int, ghost p: Prefix)
    requires FoldsWithin(folds, |text|) && tokenStart <= |text|
    ensures y == (LineOf(text, tokenStart) - folded0) * cfg.pixelsPerLine
    ensures p == LineEntry(text, folds, cfg, tokenStart, x0, prevY, folded0)
    ensures x == p.x && i == p.i && folded == p.folded
  {
    y := (LineOf(text, tokenStart) - folded0) * cfg.pixelsPerLine;
    if y != prevY {
      var lineStart := LineStartOf(text, tokenStart);
      ghost var lineStop;
      x, i, folded, lineStop := ScanLinePrefix(text, folds, lineStart, tokenStart, folded0, cfg.width);
      p := Prefix(x, i, folded, lineStop);
    } else {
      x, i, folded := x0, tokenStart, folded0;
      p := Prefix(x0, tokenStart, folded0, tokenStart);
    }
  }

  /** One token of the walk, as `TokenStep` gives it. */
  method RenderToken(img: array2<Pixel>, cfg: Config, scene: Scene, k: nat, x0: int, prevY: int, folded0: int,
                     ghost log0: seq<Write>)
    returns (stop: bool, end: PassEnd, next: nat, x: int, y: int, folded: int, ghost log: seq<Write>)
    requires ValidConfig(cfg) && ValidScene(scene) && k < |scene.tokens|
    requires Shows(img, log0) && AllOk(log0, scene, cfg, img.Length0, img.Length1)
    modifies img
    ensures var r := TokenStep(scene, cfg, img.Length0, img.Length1, PassState(k, x0, prevY, folded0));
            && log == log0 + r.writes
            && (stop <==> r.Stop?)
            && (stop ==> end == r.end)
            && (!stop ==> r.st == PassState(next, x, y, folded))
    ensures stop ==> || (end == LineLookupFailed && scene.tokens[k].start > |scene.text|)
                     || (end == PastDocumentEnd && scene.tokens[k].end > |scene.text|)
    ensures Shows(img, log) && AllOk(log, scene, cfg, img.Length0, img.Length1)
  {
    var text := scene.text;
    var tokenStart := scene.tokens[k].start;
    if tokenStart > |text| {
      return true, LineLookupFailed, k, x0, prevY, folded0, log0;
    }
    var i;
    ghost var p;
    x, y, i, folded, p := StartToken(text, scene.folds, cfg, tokenStart, x0, prevY, folded0);
    ghost var y0 := y;
    var pastEnd;
    ghost var scanned;
    i, x, y, folded, pastEnd, scanned, log := RenderTokenChars(img, cfg, scene, k, i, x, y, folded, log0);
    TokenStepIs(scene, cfg, img.Length0, img.Length1, PassState(k, x0, prevY, folded0), y0, p,
                Scan(i, Cursor(x, y), folded, pastEnd, scanned));
    if pastEnd {
      return true, PastDocumentEnd, k, x, y, folded, log;
    }
    stop, end := false, Finished;
    next := NextToken(scene.tokens, k, i);
  }

  /** The token walk of Minimap.update over a cleared image. */
  method Rasterize(img: array2<Pixel>, cfg: Config, scene: Scene) returns (end: PassEnd, ghost log: seq<Write>)
    requires ValidConfig(cfg) && ValidScene(scene)
    requires Shows(img, [])
    modifies img
    ensures (end, log) == Pass(scene, cfg, img.Length0, img.Length1)
    ensures Shows(img, log) && AllOk(log, scene, cfg, img.Length0, img.Length1)
    ensures TokensWithin(scene.tokens, |scene.text|) ==> end == Finished
  {
    log := [];
    var x, prevY, folded, k := 0, -1, 0, 0;
    assert log + Pass(scene, cfg, img.Length0, img.Length1).1 == Pass(scene, cfg, img.Length0, img.Length1).1;
    while k < |scene.tokens|
      invariant k <= |scene.tokens|
      invariant Shows(img, log) && AllOk(log, scene, cfg, img.Length0, img.Length1)
      invariant var rest := PassFrom(scene, cfg, img.Length0, img.Length1, PassState(k, x, prevY, folded));
                Pass(scene, cfg, img.Length0, img.Length1) == (rest.0, log + rest.1)
      decreases |scene.tokens| - k
    {
      ghost var st := PassState(k, x, prevY, folded);
      ghost var before := log;
      var stop, e, next;
      stop, e, next, x, prevY, folded, log := RenderToken(img, cfg, scene, k, x, prevY, folded, log);
      ghost var step := TokenStep(scene, cfg, img.Length0, img.Length1, st);
      if stop {
        PassFromStop(scene, cfg, img.Length0, img.Length1, st);
        assert log == before + step.writes;
        return e, log;
      }
      PassFromNext(scene, cfg, img.Length0, img.Length1, st);
      assert step.st == PassState(next, x, prevY, folded);
      ghost var rest := PassFrom(scene, cfg, img.Length0, img.Length1, step.st);
      assert log == before + step.writes;
      ConcatAssoc(before, step.writes, rest.1);
      k := next;
    }
    assert log + [] == log;
    end := Finished;
  }

  /** The minimap of one editor: its image, kept between passes. */
  class Minimap {
    var img: array2?<Pixel>
    const config: Config

    constructor (config: Config)
      ensures this.config == config && img == null
    {
      this.config := config;
      img := null;
    }

    /** An image at least as wide as the configured width and as tall as the
        document. */
    predicate BigEnough(image: array2?<Pixel>, documentHeight: int)
      reads this
    {
      image != null && image.Length0 >= config.width && image.Length1 >= documentHeight
    }

    /** Minimap.update: grow the image when it is missing or too small, clear
        it and run one pass. */
    method Update(scroll: ScrollState, scene: Scene) returns (end: PassEnd, ghost log: seq<Write>)
      requires ValidConfig(config) && ValidScene(scene)
      requires scroll.documentHeight >= 0
      modifies this, img
      ensures BigEnough(img, scroll.documentHeight)
      ensures BigEnough(old(img), scroll.documentHeight) ==> img == old(img)
      ensures !BigEnough(old(img), scroll.documentHeight) ==>
                fresh(img) && img.Length0 == config.width
                && img.Length1 == scroll.documentHeight + 100 * config.pixelsPerLine
      ensures (end, log) == Pass(scene, config, img.Length0, img.Length1)
      ensures Shows(img, log) && AllOk(log, scene, config, img.Length0, img.Length1)
      ensures TokensWithin(scene.tokens, |scene.text|) ==> end == Finished
    {
      if img == null || img.Length1 < scroll.documentHeight || img.Length0 < config.width {
        // A little bigger than needed, so that it need not be recreated soon.
        img := new Pixel[config.width, scroll.documentHeight + 100 * config.pixelsPerLine];
      }
      var image := img;
      ClearImage(image);
      end, log := Rasterize(image, config, scene);
    }
  }
}
