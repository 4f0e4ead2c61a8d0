/** Colour resolution from the markup model (Minimap.getColor): keep the valid
    highlighters overlapping an offset that are not erase markers, order them by
    priority (layer, then attributes) and pick a foreground, falling back to the
    colour scheme's default foreground. The loop as written keeps the last
    non-null foreground of the priority order (`GetColorAsWritten`), which is
    the lowest-priority one; the intended pick is the first (`GetColor`). */
module Highlight {
  import opened Editor

  /** The text attributes a highlighter carries for the current scheme. */
  datatype TextAttrs =
    | NoAttributes
    | EraseMarker
    | Attributes(foreground: Option<Color>, background: Option<Color>)

  /** A range highlighter of the markup model. `rank` stands for the order the
      host's attribute comparator gives among highlighters of one layer. */
  datatype Highlighter = Highlighter(
    start: int, end: int, layer: int, rank: int, valid: bool,
    attrs: TextAttrs, stripe: Option<Color>)

  function Foreground(h: Highlighter): Option<Color> {
    if h.attrs.Attributes? then h.attrs.foreground else None
  }

  /** `h` is among those the lookup at `offset` keeps: it overlaps
      [max(0, offset - 1), offset], is valid and is not an erase marker. */
  predicate Candidate(h: Highlighter, offset: int) {
    var lo := if offset - 1 > 0 then offset - 1 else 0;
    h.start <= offset && lo <= h.end && h.valid && h.attrs != EraseMarker
  }

  function Candidates(hs: seq<Highlighter>, offset: int): (r: seq<Highlighter>)
    ensures forall h :: h in r <==> h in hs && Candidate(h, offset)
  {
    if hs == [] then []
    else (if Candidate(hs[0], offset) then [hs[0]] else []) + Candidates(hs[1..], offset)
  }

  /** `a` comes strictly before `b` in the layer-then-attributes order. */
  predicate Outranks(a: Highlighter, b: Highlighter) {
    a.layer > b.layer || (a.layer == b.layer && a.rank > b.rank)
  }

  ghost predicate Sorted(s: seq<Highlighter>) {
    forall i, j :: 0 <= i < j < |s| ==> !Outranks(s[j], s[i])
  }

  /** Inserts `h` in front of the first element that does not outrank it. */
  function Insert(h: Highlighter, s: seq<Highlighter>): (r: seq<Highlighter>)
    ensures multiset(r) == multiset(s) + multiset{h}
    ensures |r| == |s| + 1
  {
    if s == [] then [h]
    else if !Outranks(s[0], h) then [h] + s
    else
      assert s == [s[0]] + s[1..];
      [s[0]] + Insert(h, s[1..])
  }

  lemma {:induction false} InsertSorted(h: Highlighter, s: seq<Highlighter>)
    requires Sorted(s)
    ensures Sorted(Insert(h, s))
  {
    if s != [] && Outranks(s[0], h) {
      var tail := Insert(h, s[1..]);
      InsertSorted(h, s[1..]);
      assert s == [s[0]] + s[1..];
      forall j | 0 <= j < |tail|
        ensures !Outranks(tail[j], s[0])
      {
        assert tail[j] in multiset(tail);
        if tail[j] != h {
          assert tail[j] in multiset(s[1..]);
          var n :| 0 <= n < |s[1..]| && s[1..][n] == tail[j];
          assert s[n + 1] == tail[j];
        }
      }
      var r := [s[0]] + tail;
      forall i, j | 0 <= i < j < |r|
        ensures !Outranks(r[j], r[i])
      {
        if i > 0 {
          assert r[i] == tail[i - 1] && r[j] == tail[j - 1];
        } else {
          assert r[j] == tail[j - 1];
        }
      }
    }
  }

  /** The priority order the lookup iterates in (quickSort with the
      layer-then-attributes comparator; highlighters that tie may come in any
      order, here in insertion order). */
  function SortByPriority(s: seq<Highlighter>): (r: seq<Highlighter>)
    ensures Sorted(r)
    ensures multiset(r) == multiset(s)
  {
    if |s| <= 1 then s
    else
      assert s == [s[0]] + s[1..];
      InsertSorted(s[0], SortByPriority(s[1..]));
      Insert(s[0], SortByPriority(s[1..]))
  }

  /** Index of the first highlighter of `s` with a foreground colour, or |s|. */
  function FirstForegroundIndex(s: seq<Highlighter>): (k: nat)
    ensures k <= |s|
    ensures forall j :: 0 <= j < k ==> Foreground(s[j]).None?
    ensures k < |s| ==> Foreground(s[k]).Some?
  {
    if s == [] then 0
    else if Foreground(s[0]).Some? then 0
    else 1 + FirstForegroundIndex(s[1..])
  }

  /** The colour a character at `offset` gets when its token has no
      foreground of its own: the foreground of the highest-priority candidate
      that has one. */
  function GetColor(hs: seq<Highlighter>, offset: int, default: Color): (c: Color)
    ensures (forall h :: h in hs && Candidate(h, offset) ==> Foreground(h).None?) ==> c == default
  {
    var sorted := SortByPriority(Candidates(hs, offset));
    var k := FirstForegroundIndex(sorted);
    if k < |sorted| then
      assert sorted[k] in multiset(Candidates(hs, offset));
      Foreground(sorted[k]).value
    else default
  }

  /** Every candidate has a place in the priority order. */
  lemma SortedIndexOf(hs: seq<Highlighter>, offset: int, g: Highlighter) returns (n: nat)
    requires g in hs && Candidate(g, offset)
    ensures n < |SortByPriority(Candidates(hs, offset))| && SortByPriority(Candidates(hs, offset))[n] == g
  {
    var sorted := SortByPriority(Candidates(hs, offset));
    assert g in multiset(sorted);
    n :| 0 <= n < |sorted| && sorted[n] == g;
  }

  /** Everything in the priority order is a candidate. */
  lemma SortedEntryIsCandidate(hs: seq<Highlighter>, offset: int, n: nat)
    requires n < |SortByPriority(Candidates(hs, offset))|
    ensures SortByPriority(Candidates(hs, offset))[n] in hs
    ensures Candidate(SortByPriority(Candidates(hs, offset))[n], offset)
  {
    assert SortByPriority(Candidates(hs, offset))[n] in multiset(Candidates(hs, offset));
  }

  /** In a sorted sequence, no highlighter with a foreground outranks the
      first one that has a foreground. */
  lemma FirstForegroundOnTop(s: seq<Highlighter>)
    requires Sorted(s)
    requires FirstForegroundIndex(s) < |s|
    ensures forall n :: 0 <= n < |s| && Foreground(s[n]).Some? ==>
              !Outranks(s[n], s[FirstForegroundIndex(s)])
  {
  }

  /** The colour GetColor picks belongs to a candidate that has a foreground
      and that no other candidate with a foreground outranks. */
  lemma GetColorIsTopPriority(hs: seq<Highlighter>, offset: int, default: Color)
    requires exists h :: h in hs && Candidate(h, offset) && Foreground(h).Some?
    ensures exists h :: h in hs && Candidate(h, offset) && Foreground(h) == Some(GetColor(hs, offset, default))
                        && forall g :: g in hs && Candidate(g, offset) && Foreground(g).Some? ==> !Outranks(g, h)
  {
    var sorted := SortByPriority(Candidates(hs, offset));
    var k := FirstForegroundIndex(sorted);
    var w :| w in hs && Candidate(w, offset) && Foreground(w).Some?;
    var m := SortedIndexOf(hs, offset, w);
    assert k < |sorted|;
    SortedEntryIsCandidate(hs, offset, k);
    FirstForegroundOnTop(sorted);
    forall g | g in hs && Candidate(g, offset) && Foreground(g).Some?
      ensures !Outranks(g, sorted[k])
    {
      var n := SortedIndexOf(hs, offset, g);
    }
    assert Foreground(sorted[k]) == Some(GetColor(hs, offset, default));
  }

  /** Two overlapping highlighters on different layers, both with a
      foreground: the higher layer's colour wins. */
  lemma HigherLayerWins(lower: Highlighter, upper: Highlighter, offset: int, default: Color)
    requires Candidate(lower, offset) && Candidate(upper, offset)
    requires lower.layer < upper.layer
    requires Foreground(lower).Some? && Foreground(upper).Some?
    ensures GetColor([lower, upper], offset, default) == Foreground(upper).value
  {
    GetColorIsTopPriority([lower, upper], offset, default);
  }

  // ---------------------------------------------------------------------------
  // The lookup as written

  /** Index of the last highlighter of `s` with a foreground colour, or -1. */
  function LastForegroundIndex(s: seq<Highlighter>): (k: int)
    ensures -1 <= k < |s|
    ensures k >= 0 ==> Foreground(s[k]).Some?
    ensures forall j :: k < j < |s| ==> Foreground(s[j]).None?
  {
    if s == [] then -1
    else if Foreground(s[|s| - 1]).Some? then |s| - 1
    else LastForegroundIndex(s[..|s| - 1])
  }

  /** What getColor's forEach leaves in `color`: `return@forEach` only ends
      the current lambda call, so every later foreground overwrites it. */
  function ColorAsWritten(hs: seq<Highlighter>, offset: int, default: Color): (c: Color)
    ensures (forall h :: h in hs && Candidate(h, offset) ==> Foreground(h).None?) ==> c == default
  {
    var sorted := SortByPriority(Candidates(hs, offset));
    var k := LastForegroundIndex(sorted);
    if k >= 0 then
      assert sorted[k] in multiset(Candidates(hs, offset));
      Foreground(sorted[k]).value
    else default
  }

  /** Minimap.getColor as written: the loop over the sorted candidates. */
  method GetColorAsWritten(hs: seq<Highlighter>, offset: int, default: Color) returns (c: Color)
    ensures c == ColorAsWritten(hs, offset, default)
  {
    var sorted := SortByPriority(Candidates(hs, offset));
    var color := LastForeground(sorted);
    c := if color.Some? then color.value else default;
  }

  /** The forEach of getColor: every foreground met overwrites `color`. */
  method LastForeground(sorted: seq<Highlighter>) returns (color: Option<Color>)
    ensures var k := LastForegroundIndex(sorted);
            color == if k >= 0 then Foreground(sorted[k]) else None
  {
    color := None;
    for j := 0 to |sorted|
      invariant var k := LastForegroundIndex(sorted[..j]);
                color == if k >= 0 then Foreground(sorted[k]) else None
    {
      assert sorted[..j + 1][..j] == sorted[..j];
      match Foreground(sorted[j]) {
        case Some(fg) => color := Some(fg);
        case None =>
      }
    }
    assert sorted[..|sorted|] == sorted;
  }

  /** In a sorted sequence the last highlighter with a foreground outranks no
      other highlighter with a foreground. */
  lemma LastForegroundAtBottom(s: seq<Highlighter>)
    requires Sorted(s)
    requires LastForegroundIndex(s) >= 0
    ensures forall n :: 0 <= n < |s| && Foreground(s[n]).Some? ==>
              !Outranks(s[LastForegroundIndex(s)], s[n])
  {
  }

  /** The colour the loop as written picks belongs to a candidate with a
      foreground that outranks no other candidate with a foreground: the
      lowest priority wins. */
  lemma ColorAsWrittenIsBottomPriority(hs: seq<Highlighter>, offset: int, default: Color)
    requires exists h :: h in hs && Candidate(h, offset) && Foreground(h).Some?
    ensures exists h :: h in hs && Candidate(h, offset) && Foreground(h) == Some(ColorAsWritten(hs, offset, default))
                        && forall g :: g in hs && Candidate(g, offset) && Foreground(g).Some? ==> !Outranks(h, g)
  {
    var sorted := SortByPriority(Candidates(hs, offset));
    var k := LastForegroundIndex(sorted);
    var w :| w in hs && Candidate(w, offset) && Foreground(w).Some?;
    var m := SortedIndexOf(hs, offset, w);
    assert k >= 0;
    SortedEntryIsCandidate(hs, offset, k);
    LastForegroundAtBottom(sorted);
    forall g | g in hs && Candidate(g, offset) && Foreground(g).Some?
      ensures !Outranks(sorted[k], g)
    {
      var n := SortedIndexOf(hs, offset, g);
    }
    assert Foreground(sorted[k]) == Some(ColorAsWritten(hs, offset, default));
  }

  /** The discrepancy: for the two highlighters of `HigherLayerWins` the loop
      as written returns the lower layer's colour. */
  lemma LowerLayerWinsAsWritten(lower: Highlighter, upper: Highlighter, offset: int, default: Color)
    requires Candidate(lower, offset) && Candidate(upper, offset)
    requires lower.layer < upper.layer
    requires Foreground(lower).Some? && Foreground(upper).Some?
    ensures ColorAsWritten([lower, upper], offset, default) == Foreground(lower).value
    ensures Foreground(lower) != Foreground(upper) ==>
              ColorAsWritten([lower, upper], offset, default) != GetColor([lower, upper], offset, default)
  {
    ColorAsWrittenIsBottomPriority([lower, upper], offset, default);
    HigherLayerWins(lower, upper, offset, default);
  }

  /** All candidates at `offset` that have a foreground have the same one. */
  predicate SameForeground(hs: seq<Highlighter>, offset: int) {
    forall a, b ::
      (a in hs && b in hs && Candidate(a, offset) && Candidate(b, offset)
       && Foreground(a).Some? && Foreground(b).Some?) ==> Foreground(a) == Foreground(b)
  }

  /** Where the candidates agree on their foreground, the lookup as written
      and the intended one give the same colour; `LowerLayerWinsAsWritten`
      shows they differ otherwise. */
  lemma AsWrittenAgreesOnSameForeground(hs: seq<Highlighter>, offset: int, default: Color)
    requires SameForeground(hs, offset)
    ensures ColorAsWritten(hs, offset, default) == GetColor(hs, offset, default)
  {
    var sorted := SortByPriority(Candidates(hs, offset));
    var f := FirstForegroundIndex(sorted);
    var l := LastForegroundIndex(sorted);
    if f < |sorted| {
      assert f <= l;
      SortedEntryIsCandidate(hs, offset, f);
      SortedEntryIsCandidate(hs, offset, l);
    } else {
      assert l < 0;
    }
  }
}
