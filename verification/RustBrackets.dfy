/** Reading structure off blanked text: a bracket's partner, top-level pieces, and trimming. */
module RustBrackets {
  import opened PyText
  import opened RustPieces
  import opened Wrappers

  // --- Partners -----------------------------------------------------------------------

  function Weight(c: char, open: char, close: char): int {
    if c == open then 1 else if c == close then -1 else 0
  }

  /** How many more brackets `b[i..j]` opens than it closes. */
  function Depth(b: string, i: nat, j: nat, open: char, close: char): int
    requires i <= j <= |b|
    decreases j - i
  {
    if i == j then 0 else Depth(b, i, j - 1, open, close) + Weight(b[j - 1], open, close)
  }

  /** The closing that first brings the depth since `i` back to nothing ends just before `r`. */
  ghost predicate PartnerEnds(b: string, i: nat, r: nat, open: char, close: char) {
    && i < r <= |b| && b[r - 1] == close && Depth(b, i, r, open, close) == 0
    && forall m :: i < m < r && b[m - 1] == close ==> Depth(b, i, m, open, close) != 0
  }

  method Balanced(b: string, i: nat, open: char, close: char) returns (r: Result<nat, Error>)
    requires open != close
    ensures r.Success? ==> PartnerEnds(b, i, r.value, open, close)
    ensures r.Failure? <==> forall m :: i < m <= |b| && b[m - 1] == close ==> Depth(b, i, m, open, close) != 0
    ensures r.Failure? ==> r.error == IndexError
  {
    if i >= |b| {
      return Failure(IndexError);
    }
    var depth, j := 0, i;
    while j < |b|
      invariant i <= j <= |b| && depth == Depth(b, i, j, open, close)
      invariant forall m :: i < m <= j && b[m - 1] == close ==> Depth(b, i, m, open, close) != 0
    {
      var c := b[j];
      if c == open {
        depth := depth + 1;
      } else if c == close {
        depth := depth - 1;
        if depth == 0 {
          return Success(j + 1);
        }
      }
      j := j + 1;
    }
    r := Failure(IndexError);
  }

  /** From an opening bracket, everything before the partner stays open: what lies between is balanced by itself. */
  lemma {:induction false} OpenUntilPartner(b: string, i: nat, r: nat, m: nat, open: char, close: char)
    requires open != close && i < |b| && b[i] == open && PartnerEnds(b, i, r, open, close) && i < m < r
    ensures Depth(b, i, m, open, close) > 0
    decreases m
  {
    if m > i + 1 {
      OpenUntilPartner(b, i, r, m - 1, open, close);
    } else {
      assert Depth(b, i, i, open, close) == 0;
    }
  }

  /** The partner's own text: as much closed as opened, and never more. */
  lemma {:induction false} DepthSplits(b: string, i: nat, k: nat, j: nat, open: char, close: char)
    requires i <= k <= j <= |b|
    ensures Depth(b, i, j, open, close) == Depth(b, i, k, open, close) + Depth(b, k, j, open, close)
    decreases j
  {
    if k < j {
      DepthSplits(b, i, k, j - 1, open, close);
    }
  }

  lemma PartnerEncloses(b: string, i: nat, r: nat, m: nat, open: char, close: char)
    requires open != close && i < |b| && b[i] == open && PartnerEnds(b, i, r, open, close) && i + 1 <= m < r
    ensures Depth(b, i + 1, m, open, close) >= 0
    ensures Depth(b, i + 1, r - 1, open, close) == 0
  {
    OpenUntilPartner(b, i, r, m, open, close);
    DepthSplits(b, i, i + 1, m, open, close);
    DepthSplits(b, i, i + 1, r - 1, open, close);
    assert Depth(b, i, i, open, close) == 0 && Depth(b, i, i + 1, open, close) == 1;
  }

  /** The depth as the code has it: brackets in comments and literals do not count. */
  function CodeDepth(ps: seq<Piece>, i: nat, j: nat, open: char, close: char): int
    requires i <= j
    decreases j - i
  {
    if i == j then 0
    else CodeDepth(ps, i, j - 1, open, close)
         + (if CodeAt(ps, j - 1).Some? then Weight(CodeAt(ps, j - 1).value, open, close) else 0)
  }

  lemma {:induction false} DepthIsTheCodes(ps: seq<Piece>, i: nat, j: nat, open: char, close: char)
    requires Structural(open) && Structural(close) && i <= j <= |Render(ps)|
    ensures |BlankRender(ps)| == |Render(ps)|
    ensures Depth(BlankRender(ps), i, j, open, close) == CodeDepth(ps, i, j, open, close)
    decreases j
  {
    hide Structural, CodeAt, Render, BlankRender;
    SameLength(ps);
    if i < j {
      DepthIsTheCodes(ps, i, j - 1, open, close);
      StructureExact(ps, j - 1);
    }
  }

  /** In blanked text the partner found is the code's own: it closes there, and nowhere earlier. */
  lemma PartnerIsTheCodes(ps: seq<Piece>, i: nat, r: nat, open: char, close: char)
    requires Structural(open) && Structural(close) && open != close
    requires PartnerEnds(BlankRender(ps), i, r, open, close)
    ensures CodeAt(ps, r - 1) == Some(close) && CodeDepth(ps, i, r, open, close) == 0
    ensures forall m :: i < m < r && CodeAt(ps, m - 1) == Some(close) ==> CodeDepth(ps, i, m, open, close) != 0
  {
    hide Structural, CodeAt, Render, BlankRender;
    SameLength(ps);
    StructureExact(ps, r - 1);
    DepthIsTheCodes(ps, i, r, open, close);
    forall m | i < m < r && CodeAt(ps, m - 1) == Some(close) ensures CodeDepth(ps, i, m, open, close) != 0 {
      StructureExact(ps, m - 1);
      DepthIsTheCodes(ps, i, m, open, close);
    }
  }

  // --- Top-level pieces ------------------------------------------------------------------

  datatype Span = Span(start: nat, end: nat)

  function Nesting(c: char): int {
    if c in "([{" then 1 else if c in ")]}" then -1 else 0
  }

  function Level(b: string, a: nat, j: nat): int
    requires a <= j <= |b|
    decreases j - a
  {
    if a == j then 0 else Level(b, a, j - 1) + Nesting(b[j - 1])
  }

  predicate TopComma(b: string, a: nat, j: nat)
    requires a <= j < |b|
  {
    b[j] == ',' && Level(b, a, j) == 0
  }

  function CodeLevel(ps: seq<Piece>, a: nat, j: nat): int
    requires a <= j
    decreases j - a
  {
    if a == j then 0
    else CodeLevel(ps, a, j - 1) + (if CodeAt(ps, j - 1).Some? then Nesting(CodeAt(ps, j - 1).value) else 0)
  }

  lemma {:induction false} LevelIsTheCodes(ps: seq<Piece>, a: nat, j: nat)
    requires a <= j <= |Render(ps)|
    ensures |BlankRender(ps)| == |Render(ps)|
    ensures Level(BlankRender(ps), a, j) == CodeLevel(ps, a, j)
    decreases j
  {
    hide Structural, CodeAt, Render, BlankRender;
    SameLength(ps);
    if a < j {
      LevelIsTheCodes(ps, a, j - 1);
      StructureExact(ps, j - 1);
      BracketsAreStructural(BlankRender(ps)[j - 1]);
    }
  }

  lemma BracketsAreStructural(c: char)
    ensures Nesting(c) != 0 ==> Structural(c)
    ensures Structural(',')
  {
  }

  /** In blanked text the top-level commas are the code's own, at the code's own depth. */
  lemma TopCommaIsTheCodes(ps: seq<Piece>, a: nat, j: nat)
    requires a <= j < |Render(ps)|
    ensures |BlankRender(ps)| == |Render(ps)|
    ensures TopComma(BlankRender(ps), a, j) <==> CodeAt(ps, j) == Some(',') && CodeLevel(ps, a, j) == 0
  {
    hide Structural, CodeAt, Render, BlankRender, Level, CodeLevel;
    StructureExact(ps, j);
    LevelIsTheCodes(ps, a, j);
    BracketsAreStructural(',');
  }

  predicate Space(py: Python, b: string, i: nat, j: nat)
    requires j <= |b|
  {
    forall k :: i <= k < j ==> py.space(b[k])
  }

  /** Where the next span starts: behind the comma after the last one. */
  function Covered(a: nat, out: seq<Span>): nat {
    if out == [] then a else out[|out| - 1].end + 1
  }

  /** `last` starts at `from`, behind a top-level comma if it is not the first, and holds no top-level comma. */
  predicate NextSpan(b: string, a: nat, z: nat, from: nat, first: bool, last: Span)
    requires a <= z <= |b|
  {
    && a <= from == last.start <= last.end <= z
    && (!first ==> from > a && TopComma(b, a, from - 1))
    && forall j :: last.start <= j < last.end ==> !TopComma(b, a, j)
  }

  /** Back to back from `a`. */
  predicate Consecutive(b: string, a: nat, z: nat, out: seq<Span>)
    requires a <= z <= |b|
    decreases |out|
  {
    out != [] ==>
      var init, last := out[..|out| - 1], out[|out| - 1];
      Consecutive(b, a, z, init) && NextSpan(b, a, z, Covered(a, init), init == [], last)
  }

  /** No top-level comma in `b[from..to]`. */
  predicate NoTopComma(b: string, a: nat, from: nat, to: nat)
    requires a <= from && to <= |b|
  {
    forall j :: from <= j < to ==> !TopComma(b, a, j)
  }

  /** What is left behind the last piece: nothing, or white space behind a top-level comma. */
  predicate Tail(py: Python, b: string, a: nat, z: nat, out: seq<Span>)
    requires a <= z <= |b| && (out != [] ==> a <= out[|out| - 1].end)
  {
    var from := Covered(a, out);
    || (out != [] && from == z + 1)
    || (from <= z && Space(py, b, from, z) && NoTopComma(b, a, from, z) && (out != [] ==> TopComma(b, a, from - 1)))
  }

  /** Part of the way: everything before `start` is split, and no top-level comma stands between `start` and `j`. */
  predicate Splitting(b: string, a: nat, z: nat, out: seq<Span>, start: nat, j: nat)
    requires a <= z <= |b|
  {
    && a <= start <= j <= z && Consecutive(b, a, z, out) && start == Covered(a, out)
    && (out != [] ==> start > a && TopComma(b, a, start - 1)) && NoTopComma(b, a, start, j)
  }

  method SplitTop(py: Python, b: string, a: nat, z: nat) returns (out: seq<Span>)
    requires a <= z <= |b|
    ensures Consecutive(b, a, z, out) && (out != [] ==> a <= out[|out| - 1].end)
    ensures Tail(py, b, a, z, out)
  {
    out := [];
    var depth, start, j := 0, a, a;
    assert Splitting(b, a, z, out, start, j);
    hide Splitting;
    while j < z
      invariant a <= start <= j <= z && depth == Level(b, a, j)
      invariant Splitting(b, a, z, out, start, j)
    {
      var c := b[j];
      SplitStep(b, a, z, out, start, j);
      if c in "([{" {
        depth := depth + 1;
      } else if c in ")]}" {
        depth := depth - 1;
      } else if c == ',' && depth == 0 {
        out := out + [Span(start, j)];
        start := j + 1;
      }
      j := j + 1;
    }
    LastPiece(py, b, a, z, out, start);
    if exists k :: start <= k < z && !py.space(b[k]) {
      out := out + [Span(start, z)];
    }
  }

  lemma Extended(b: string, a: nat, z: nat, out: seq<Span>, start: nat, j: nat)
    requires a <= z <= |b| && Splitting(b, a, z, out, start, j)
    ensures Consecutive(b, a, z, out + [Span(start, j)])
  {
    hide TopComma;
    var more := out + [Span(start, j)];
    assert more[..|more| - 1] == out;
  }

  lemma SplitStep(b: string, a: nat, z: nat, out: seq<Span>, start: nat, j: nat)
    requires a <= z <= |b| && j < z && Splitting(b, a, z, out, start, j)
    ensures b[j] == ',' && Level(b, a, j) == 0 ==> Splitting(b, a, z, out + [Span(start, j)], j + 1, j + 1)
    ensures !(b[j] == ',' && Level(b, a, j) == 0) ==> Splitting(b, a, z, out, start, j + 1)
  {
    if TopComma(b, a, j) {
      Extended(b, a, z, out, start, j);
    }
    hide Consecutive, Level;
  }

  lemma LastPiece(py: Python, b: string, a: nat, z: nat, out: seq<Span>, start: nat)
    requires a <= z <= |b| && Splitting(b, a, z, out, start, z)
    ensures Consecutive(b, a, z, out) && Consecutive(b, a, z, out + [Span(start, z)])
    ensures (out != [] ==> a <= out[|out| - 1].end) && a <= z
    ensures Space(py, b, start, z) ==> Tail(py, b, a, z, out)
    ensures Tail(py, b, a, z, out + [Span(start, z)])
  {
    Extended(b, a, z, out, start, z);
    hide TopComma;
  }

  predicate InText(b: string, out: seq<Span>) {
    forall k :: 0 <= k < |out| ==> out[k].start <= out[k].end <= |b|
  }

  lemma {:induction false} ConsecutiveInText(b: string, a: nat, z: nat, out: seq<Span>)
    requires a <= z <= |b| && Consecutive(b, a, z, out)
    ensures InText(b, out)
    decreases |out|
  {
    hide TopComma;
    if out != [] {
      var init := out[..|out| - 1];
      ConsecutiveInText(b, a, z, init);
      forall k | 0 <= k < |out| ensures out[k].start <= out[k].end <= |b| {
        if k < |init| {
          assert out[k] == init[k];
        }
      }
    }
  }

  /** The pieces with their commas put back. */
  function Rejoined(b: string, out: seq<Span>): string
    requires InText(b, out)
  {
    if out == [] then ""
    else
      var init, last := out[..|out| - 1], out[|out| - 1];
      (if init == [] then "" else Rejoined(b, init) + [',']) + b[last.start..last.end]
  }

  lemma {:induction false} RejoinedCovers(b: string, a: nat, z: nat, out: seq<Span>)
    requires a <= z <= |b| && Consecutive(b, a, z, out) && out != [] && InText(b, out)
    ensures a <= out[|out| - 1].end <= z && Rejoined(b, out) == b[a..out[|out| - 1].end]
    decreases |out|
  {
    hide Level;
    var init, last := out[..|out| - 1], out[|out| - 1];
    if init != [] {
      RejoinedCovers(b, a, z, init);
      hide Consecutive;
      Glued(b, a, last.start - 1, last.end);
      assert Rejoined(b, out) == Rejoined(b, init) + [','] + b[last.start..last.end];
    } else {
      assert "" + b[a..last.end] == b[a..last.end];
    }
  }

  lemma Glued(b: string, a: nat, comma: nat, end: nat)
    requires a <= comma < end <= |b| && b[comma] == ','
    ensures b[a..end] == b[a..comma] + [','] + b[comma + 1..end]
  {
    Cut(b, a, comma + 1, end);
    Cut(b, a, comma, comma + 1);
    assert b[comma..comma + 1] == [','];
  }

  lemma Cut(b: string, i: nat, k: nat, j: nat)
    requires i <= k <= j <= |b|
    ensures b[i..j] == b[i..k] + b[k..j]
  {
  }

  predicate AllSpace(py: Python, t: string) { forall k :: 0 <= k < |t| ==> py.space(t[k]) }

  lemma SpaceSlice(py: Python, b: string, i: nat, j: nat)
    requires i <= j <= |b| && Space(py, b, i, j)
    ensures AllSpace(py, b[i..j])
  {
  }

  lemma WhatIsLeft(py: Python, b: string, a: nat, z: nat, out: seq<Span>) returns (blank: string)
    requires a <= z <= |b| && Consecutive(b, a, z, out) && InText(b, out)
    requires (out != [] ==> a <= out[|out| - 1].end) && Tail(py, b, a, z, out)
    ensures AllSpace(py, blank)
    ensures b[a..z] == Rejoined(b, out) + blank || (out != [] && b[a..z] == Rejoined(b, out) + [','] + blank)
  {
    if out != [] {
      RejoinedCovers(b, a, z, out);
    }
    hide Rejoined, Consecutive, Level, NoTopComma;
    var from := Covered(a, out);
    if out == [] {
      NothingRejoined(b);
      SpaceSlice(py, b, a, z);
      blank := b[a..z];
    } else if from == z + 1 {
      blank := "";
    } else {
      Glued(b, a, from - 1, z);
      SpaceSlice(py, b, from, z);
      blank := b[from..z];
    }
  }

  /** Nothing is lost: the pieces, rejoined with commas, are the text - up to white space behind a trailing comma. */
  lemma PiecesRejoin(py: Python, b: string, a: nat, z: nat, out: seq<Span>)
    requires a <= z <= |b| && Consecutive(b, a, z, out) && InText(b, out)
    requires (out != [] ==> a <= out[|out| - 1].end) && Tail(py, b, a, z, out)
    ensures exists blank ::
              && AllSpace(py, blank)
              && (b[a..z] == Rejoined(b, out) + blank || (out != [] && b[a..z] == Rejoined(b, out) + [','] + blank))
  {
    hide Rejoined, Consecutive, Tail, InText, AllSpace;
    var blank := WhatIsLeft(py, b, a, z, out);
  }

  lemma NothingRejoined(b: string)
    ensures Rejoined(b, []) == ""
  {
  }

  /** The commas taken out are exactly the top-level ones. */
  lemma {:induction false} EveryTopCommaSplits(py: Python, b: string, a: nat, z: nat, out: seq<Span>, j: nat)
    requires a <= j < z <= |b| && Consecutive(b, a, z, out) && TopComma(b, a, j)
    requires (out != [] ==> a <= out[|out| - 1].end) && Tail(py, b, a, z, out)
    ensures exists k :: 0 <= k < |out| && out[k].end == j
  {
    hide TopComma;
    if out != [] {
      WithinSplits(b, a, z, out, j);
    }
  }

  lemma {:induction false} WithinSplits(b: string, a: nat, z: nat, out: seq<Span>, j: nat)
    requires a <= j < z <= |b| && Consecutive(b, a, z, out) && TopComma(b, a, j) && out != []
    ensures j <= out[|out| - 1].end ==> exists k :: 0 <= k < |out| && out[k].end == j
    decreases |out|
  {
    hide TopComma;
    var init, last := out[..|out| - 1], out[|out| - 1];
    if j < last.start && init != [] {
      WithinSplits(b, a, z, init, j);
      var k :| 0 <= k < |init| && init[k].end == j;
      assert out[k].end == j;
    } else if j == last.end {
      assert out[|out| - 1].end == j;
    }
  }

  // --- Trimming ---------------------------------------------------------------------------

  /**
   What is left of `b[a..z]`: no white space at its ends; what went behind it is white space and at
   most one comma.
   */
  ghost predicate Trimmed(py: Python, b: string, a: nat, z: nat, lo: nat, hi: nat)
    requires z <= |b|
  {
    && a <= lo <= hi <= z && Space(py, b, a, lo)
    && (lo < hi ==> !py.space(b[lo]) && !py.space(b[hi - 1]))
    && (Space(py, b, hi, z) || exists c :: hi <= c < z && b[c] == ',' && Space(py, b, hi, c) && Space(py, b, c + 1, z))
    && (lo < hi && b[hi - 1] == ',' ==> exists c :: hi <= c < z && b[c] == ',')
  }

  /** White space from both ends, one trailing comma, and the white space before it. */
  method Trim(py: Python, b: string, a: nat, z: nat) returns (lo: nat, hi: nat)
    requires a <= z <= |b| && !py.space(',')
    ensures Trimmed(py, b, a, z, lo, hi)
  {
    lo, hi := a, z;
    while lo < hi && py.space(b[lo])
      invariant a <= lo <= hi && Space(py, b, a, lo)
    {
      lo := lo + 1;
    }
    while hi > lo && py.space(b[hi - 1])
      invariant lo <= hi <= z && Space(py, b, hi, z)
      invariant lo < hi ==> !py.space(b[lo])
      decreases hi
    {
      hi := hi - 1;
    }
    if hi > lo && b[hi - 1] == ',' {
      hi := hi - 1;
      ghost var c := hi;
      while hi > lo && py.space(b[hi - 1])
        invariant lo <= hi <= c && Space(py, b, hi, c)
        invariant lo < hi ==> !py.space(b[lo])
        decreases hi
      {
        hi := hi - 1;
      }
    }
  }
}
