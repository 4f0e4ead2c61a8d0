/** The parts of the host editor that the minimap and the glance panel read:
    the document text and its line structure, fold regions and colours.
    The host owns all of these; here they are plain values. */
module Editor {

  datatype Option<+T> = None | Some(value: T)

  /** A colour as the host hands it out. Only the alpha component (a fraction
      in [0, 1]) is interpreted by the minimap; the RGB part stays opaque. */
  datatype Color = Color(rgb: int, alpha: real)

  predicate ValidColor(c: Color) {
    0.0 <= c.alpha <= 1.0
  }

  /** Number of line feeds in `s`. */
  function Newlines(s: seq<char>): nat
  {
    if s == [] then 0
    else Newlines(s[..|s| - 1]) + (if s[|s| - 1] == '\n' then 1 else 0)
  }

  lemma {:induction false} NewlinesAppend(s: seq<char>, t: seq<char>)
    ensures Newlines(s + t) == Newlines(s) + Newlines(t)
    decreases |t|
  {
    if t == [] {
      assert s + t == s;
    } else {
      assert (s + t)[..|s + t| - 1] == s + t[..|t| - 1];
      NewlinesAppend(s, t[..|t| - 1]);
    }
  }

  /** The document's line number of `offset`: the number of line feeds before it. */
  function LineOf(text: seq<char>, offset: nat): nat
    requires offset <= |text|
  {
    Newlines(text[..offset])
  }

  /** Line numbers grow with offsets, by exactly the line feeds in between. */
  lemma LinesBetween(text: seq<char>, a: nat, b: nat)
    requires a <= b <= |text|
    ensures LineOf(text, b) == LineOf(text, a) + Newlines(text[a..b])
    ensures LineOf(text, a) <= LineOf(text, b)
  {
    assert text[..b] == text[..a] + text[a..b];
    NewlinesAppend(text[..a], text[a..b]);
  }

  /** The offset at which the line holding `offset` starts (what the host's
      line iterator reports as `start` after `start(offset)`). */
  function LineStartOf(text: seq<char>, offset: nat): (start: nat)
    requires offset <= |text|
    ensures start <= offset
    ensures start == 0 || text[start - 1] == '\n'
    ensures forall j :: start <= j < offset ==> text[j] != '\n'
  {
    if offset == 0 || text[offset - 1] == '\n' then offset
    else LineStartOf(text, offset - 1)
  }

  /** A line start lies on the same line as the offset it was taken from. */
  lemma {:induction false} LineStartSameLine(text: seq<char>, offset: nat)
    requires offset <= |text|
    ensures LineOf(text, LineStartOf(text, offset)) == LineOf(text, offset)
  {
    var s := LineStartOf(text, offset);
    LinesBetween(text, s, offset);
    NoNewlines(text[s..offset]);
  }

  lemma {:induction false} NoNewlines(s: seq<char>)
    requires forall j :: 0 <= j < |s| ==> s[j] != '\n'
    ensures Newlines(s) == 0
    decreases |s|
  {
    if s != [] {
      NoNewlines(s[..|s| - 1]);
    }
  }

  /** A fold region of the host's folding model. `custom` marks the host's
      custom (widget) fold regions. */
  datatype FoldRegion = FoldRegion(start: int, end: int, expanded: bool, custom: bool)

  /** The host keeps every fold region inside the document. */
  predicate FoldsWithin(folds: seq<FoldRegion>, textLength: nat) {
    forall k :: 0 <= k < |folds| ==> folds[k].start <= folds[k].end <= textLength
  }

  /** `f` may come before `g` in the host's fold list: the folding model
      refuses regions that partly overlap, so two regions are nested or
      disjoint, and it lists them by start offset with an outer region
      ahead of the regions it contains. */
  predicate ListedBefore(f: FoldRegion, g: FoldRegion) {
    && (f.start < g.start || (f.start == g.start && g.end <= f.end))
    && (g.end <= f.end || f.end <= g.start)
  }

  predicate FoldsOrdered(folds: seq<FoldRegion>) {
    forall a, b :: 0 <= a < b < |folds| ==> ListedBefore(folds[a], folds[b])
  }

  /** Number of lines a region hides: line(end) - line(start). */
  function FoldSpan(text: seq<char>, f: FoldRegion): (span: nat)
    requires 0 <= f.start <= f.end <= |text|
    ensures span == LineOf(text, f.end) - LineOf(text, f.start)
  {
    LinesBetween(text, f.start, f.end);
    LineOf(text, f.end) - LineOf(text, f.start)
  }

  /** The collapsed region at `offset` (the host's getCollapsedRegionAtOffset):
      the first collapsed region in list order with start <= offset < end, if
      any. On an ordered list that is the outermost one
      (`CollapsedRegionIsOutermost`), which is the one the host returns. */
  function CollapsedRegionAt(folds: seq<FoldRegion>, offset: int): (r: Option<FoldRegion>)
    ensures r.Some? ==> r.value in folds && !r.value.expanded
                        && r.value.start <= offset < r.value.end
    ensures r.None? ==> forall k :: 0 <= k < |folds| && !folds[k].expanded ==>
                          !(folds[k].start <= offset < folds[k].end)
  {
    if folds == [] then None
    else if !folds[0].expanded && folds[0].start <= offset < folds[0].end then Some(folds[0])
    else CollapsedRegionAt(folds[1..], offset)
  }

  /** On an ordered fold list the region found contains every other collapsed
      region that contains the offset. */
  lemma {:induction false} CollapsedRegionIsOutermost(folds: seq<FoldRegion>, offset: int)
    requires FoldsOrdered(folds)
    ensures var r := CollapsedRegionAt(folds, offset);
            r.Some? ==> forall k :: 0 <= k < |folds| && !folds[k].expanded && folds[k].start <= offset < folds[k].end
                                    ==> r.value.start <= folds[k].start && folds[k].end <= r.value.end
    decreases |folds|
  {
    if folds != [] && !(!folds[0].expanded && folds[0].start <= offset < folds[0].end) {
      CollapsedRegionIsOutermost(folds[1..], offset);
      var r := CollapsedRegionAt(folds, offset);
      forall k | 0 <= k < |folds| && !folds[k].expanded && folds[k].start <= offset < folds[k].end && r.Some?
        ensures r.value.start <= folds[k].start && folds[k].end <= r.value.end
      {
        assert folds[k] == folds[1..][k - 1];
      }
    }
  }
}
