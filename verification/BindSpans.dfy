/**
 The spans the script probes: what is left, trimmed, between the brackets of a call's
 argument. They are read off blanked text, and never meet at an end.
 */
module BindSpans {
  import opened PyText
  import opened RustBrackets
  import opened Splice
  import opened SpliceMarks
  import opened Wrappers

  /** `.bind(..)`: its dot, its bracket, just behind the bracket's partner, and the argument trimmed. */
  datatype Call = Call(dot: nat, open: nat, after: nat, start: nat, end: nat)

  ghost predicate IsCall(py: Python, b: string, c: Call) {
    && c.dot < c.open < |b| && b[c.dot] == '.' && b[c.open] == '('
    && PartnerEnds(b, c.open, c.after, '(', ')')
    && Trimmed(py, b, c.open + 1, c.after - 1, c.start, c.end)
  }

  /** Python does not take these for white space. */
  predicate Solid(py: Python) { !py.space('.') && !py.space(')') && !py.space(',') }

  method ReadCall(py: Python, b: string, dot: nat, open: nat) returns (r: Result<Call, Error>)
    requires dot < open < |b| && b[dot] == '.' && b[open] == '(' && Solid(py)
    ensures r.Success? ==> r.value.dot == dot && r.value.open == open && IsCall(py, b, r.value)
    ensures r.Failure? <==> forall m :: open < m <= |b| && b[m - 1] == ')' ==> Depth(b, open, m, '(', ')') != 0
  {
    var after := Balanced(b, open, '(', ')');
    if after.Failure? {
      return Failure(after.error);
    }
    assert after.value != open + 1;
    var lo, hi := Trim(py, b, open + 1, after.value - 1);
    r := Success(Call(dot, open, after.value, lo, hi));
  }

  /** A bracket opened inside another closes inside it. */
  lemma PartnersNest(b: string, i: nat, r: nat, j: nat, q: nat)
    requires i < j < r && j < |b| && b[i] == '(' && b[j] == '('
    requires PartnerEnds(b, i, r, '(', ')') && PartnerEnds(b, j, q, '(', ')')
    ensures q < r
  {
    if q >= r {
      OpenUntilPartner(b, i, r, j, '(', ')');
      DepthSplits(b, i, j, r, '(', ')');
      if q > r {
        OpenUntilPartner(b, j, q, r, '(', ')');
      }
    }
  }

  /** Of two calls, the second's dot behind the first's bracket: the spans are strictly apart, or strictly nested. */
  lemma TwoSpans(py: Python, b: string, c: Call, d: Call)
    requires Solid(py) && IsCall(py, b, c) && IsCall(py, b, d) && c.open < d.dot
    ensures c.end < d.start || (c.start < d.start && d.end < c.end)
  {
    if d.open < c.after {
      assert d.open != c.after - 1;
      PartnersNest(b, c.open, c.after, d.open, d.after);
      StaysIn(py, b, c, d.dot);
      StaysIn(py, b, c, d.after - 1);
    }
  }

  /** Trimming stops at the first and at the last character that is neither white space nor a comma. */
  lemma StaysIn(py: Python, b: string, c: Call, q: nat)
    requires Solid(py) && IsCall(py, b, c) && c.open < q < c.after - 1
    requires !py.space(b[q]) && b[q] != ','
    ensures c.start <= q < c.end
  {
  }

  /** One probe for each call of a file. */
  function Probes(calls: seq<Call>, texts: seq<string>): seq<Probe>
    requires |texts| == |calls|
  {
    seq(|calls|, i requires 0 <= i < |calls| => Probe(calls[i].start, calls[i].end, texts[i]))
  }

  /** No call's dot and bracket stand around another call's bracket. */
  ghost predicate Calls(py: Python, b: string, calls: seq<Call>) {
    && (forall i :: 0 <= i < |calls| ==> IsCall(py, b, calls[i]))
    && forall i, j :: 0 <= i < |calls| && 0 <= j < |calls| && i != j ==>
         calls[i].open != calls[j].open && (calls[i].open < calls[j].open ==> calls[i].open < calls[j].dot)
  }

  /** The script's spans share no end and nest, so each is wrapped by its own probe and every wrapper is whole. */
  lemma BindSpansWrap(py: Python, b: string, calls: seq<Call>, texts: seq<string>)
    requires Solid(py) && Calls(py, b, calls) && |texts| == |calls|
    ensures var probes := Probes(calls, texts);
            && Splice.Within(probes, |b|) && Apart(probes) && Splice.Nesting(probes)
            && AllWhole(Marked(|b|, probes), |probes|)
  {
    var probes := Probes(calls, texts);
    forall i | 0 <= i < |calls| ensures probes[i].start <= probes[i].end <= |b| {
      assert IsCall(py, b, calls[i]);
    }
    forall i, j | 0 <= i < |calls| && 0 <= j < |calls| && i != j
      ensures EndsApart(probes[i], probes[j]) && Compatible(probes[i], probes[j]) && Clean(probes[i], probes[j])
    {
      assert IsCall(py, b, calls[i]) && IsCall(py, b, calls[j]);
      hide PartnerEnds;
      if calls[i].open < calls[j].open {
        TwoSpans(py, b, calls[i], calls[j]);
      } else {
        TwoSpans(py, b, calls[j], calls[i]);
      }
    }
    hide Marked;
    AllWholeIff(|b|, probes);
  }

  /** No type arguments: the dot, the method's name, the bracket. */
  predicate Direct(b: string, c: Call) {
    c.open <= |b| && forall k :: c.dot < k < c.open ==> b[k] != '('
  }

  /** Of such calls no more is asked than that each is listed once. */
  lemma DirectBindSpansWrap(py: Python, b: string, calls: seq<Call>, texts: seq<string>)
    requires Solid(py) && |texts| == |calls|
    requires forall i :: 0 <= i < |calls| ==> IsCall(py, b, calls[i]) && Direct(b, calls[i])
    requires forall i, j :: 0 <= i < j < |calls| ==> calls[i].open != calls[j].open
    ensures var probes := Probes(calls, texts);
            && Splice.Within(probes, |b|) && Apart(probes) && Splice.Nesting(probes)
            && AllWhole(Marked(|b|, probes), |probes|)
  {
    hide PartnerEnds, Trimmed;
    forall i, j | 0 <= i < |calls| && 0 <= j < |calls| && i != j
      ensures calls[i].open != calls[j].open && (calls[i].open < calls[j].open ==> calls[i].open < calls[j].dot)
    {
      assert IsCall(py, b, calls[i]) && IsCall(py, b, calls[j]) && Direct(b, calls[j]);
    }
    hide IsCall;
    BindSpansWrap(py, b, calls, texts);
  }
}
