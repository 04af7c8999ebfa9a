/**
 Wrapping spans of a source in probes: insertions made one by one, back to front,
 each at its offset in the text as it was.
 */
module Splice {
  import opened Wrappers

  /** At one offset a closing (1) is inserted before an opening (0). */
  datatype Insert<T> = Insert(pos: nat, order: nat, text: seq<T>)

  /** One bound expression: its span, and the text its probe opens with. */
  datatype Probe = Probe(start: nat, end: nat, open: string)

  const CLOSE: string := "\n)"

  /** Back to front, closings first. */
  predicate Precedes<T>(x: Insert<T>, y: Insert<T>) {
    x.pos > y.pos || (x.pos == y.pos && x.order >= y.order)
  }

  predicate BackToFront<T>(list: seq<Insert<T>>) {
    forall i, j :: 0 <= i < j < |list| ==> Precedes(list[i], list[j])
  }

  // --- The script's loop -----------------------------------------------------------------

  function Inserted<T>(s: seq<T>, x: Insert<T>): seq<T>
    requires x.pos <= |s|
  {
    s[..x.pos] + x.text + s[x.pos..]
  }

  predicate Fit<T>(list: seq<Insert<T>>, n: nat) {
    forall i :: 0 <= i < |list| ==> list[i].pos <= n
  }

  /** All of them, first to last. */
  function InsertedAll<T>(s: seq<T>, list: seq<Insert<T>>): (r: seq<T>)
    requires Fit(list, |s|)
    ensures |r| >= |s|
  {
    if list == [] then s else Inserted(InsertedAll(s, list[..|list| - 1]), list[|list| - 1])
  }

  /** A stable sort: an insert goes behind those it does not strictly precede. */
  function Placed<T>(list: seq<Insert<T>>, x: Insert<T>): (r: seq<Insert<T>>)
    ensures |r| == |list| + 1
  {
    if list != [] && !Precedes(list[|list| - 1], x) then Placed(list[..|list| - 1], x) + [list[|list| - 1]]
        else list + [x]
  }

  function Sorted<T>(list: seq<Insert<T>>): (r: seq<Insert<T>>)
    ensures |r| == |list|
  {
    if list == [] then [] else Placed(Sorted(list[..|list| - 1]), list[|list| - 1])
  }

  lemma {:induction false} PlacedKeepsAll<T>(list: seq<Insert<T>>, x: Insert<T>)
    ensures multiset(Placed(list, x)) == multiset(list) + multiset{x}
    decreases |list|
  {
    if list != [] && !Precedes(list[|list| - 1], x) {
      PlacedKeepsAll(list[..|list| - 1], x);
      assert list == list[..|list| - 1] + [list[|list| - 1]];
    }
  }

  lemma {:induction false} PlacedKeeps<T>(list: seq<Insert<T>>, x: Insert<T>)
    requires BackToFront(list)
    ensures BackToFront(Placed(list, x))
    decreases |list|
  {
    if list != [] && !Precedes(list[|list| - 1], x) {
      var init, last := list[..|list| - 1], list[|list| - 1];
      PlacedKeeps(init, x);
      PlacedKeepsAll(init, x);
      var head := Placed(init, x);
      forall i | 0 <= i < |head| ensures Precedes(head[i], last) {
        FromEither(init, x, head, i);
        if head[i] != x {
          var k :| 0 <= k < |init| && init[k] == head[i];
          assert list[k] == head[i];
        }
      }
    } else if list != [] {
      forall i | 0 <= i < |list| ensures Precedes(list[i], x) {
        if i < |list| - 1 {
          assert Precedes(list[i], list[|list| - 1]);
        }
      }
    }
  }

  lemma FromEither<T>(init: seq<Insert<T>>, x: Insert<T>, head: seq<Insert<T>>, i: nat)
    requires multiset(head) == multiset(init) + multiset{x} && i < |head|
    ensures head[i] == x || head[i] in init
  {
    assert head[i] in multiset(head);
  }

  lemma {:induction false} SortedKeeps<T>(list: seq<Insert<T>>)
    ensures BackToFront(Sorted(list)) && multiset(Sorted(list)) == multiset(list)
    decreases |list|
  {
    if list != [] {
      var init, last := list[..|list| - 1], list[|list| - 1];
      SortedKeeps(init);
      PlacedKeeps(Sorted(init), last);
      PlacedKeepsAll(Sorted(init), last);
      assert list == init + [last];
    }
  }

  lemma SortedFit<T>(list: seq<Insert<T>>, n: nat)
    requires Fit(list, n)
    ensures Fit(Sorted(list), n)
  {
    SortedKeeps(list);
    forall i | 0 <= i < |list| ensures Sorted(list)[i].pos <= n {
      assert Sorted(list)[i] in multiset(Sorted(list));
      assert Sorted(list)[i] in multiset(list);
    }
  }

  /** Two insertions a probe, in the order the probes come. */
  function Inserts(probes: seq<Probe>): (r: seq<Insert<char>>)
    ensures |r| == 2 * |probes|
  {
    if probes == [] then []
    else
      var p := probes[|probes| - 1];
      Inserts(probes[..|probes| - 1]) + [Insert(p.start, 0, p.open), Insert(p.end, 1, CLOSE)]
  }

  predicate Within(probes: seq<Probe>, n: nat) {
    forall i :: 0 <= i < |probes| ==> probes[i].start <= probes[i].end <= n
  }

  lemma {:induction false} InsertsFit(probes: seq<Probe>, n: nat)
    requires Within(probes, n)
    ensures Fit(Inserts(probes), n)
  {
    if probes != [] {
      InsertsFit(probes[..|probes| - 1], n);
    }
  }

  method ProbedCopy(s: string, probes: seq<Probe>) returns (r: string)
    requires Within(probes, |s|)
    ensures Fit(Sorted(Inserts(probes)), |s|) && r == InsertedAll(s, Sorted(Inserts(probes)))
  {
    var list: seq<Insert<char>> := [];
    for i := 0 to |probes|
      invariant list == Inserts(probes[..i])
    {
      var p := probes[i];
      assert probes[..i + 1][..i] == probes[..i];
      list := list + [Insert(p.start, 0, p.open), Insert(p.end, 1, CLOSE)];
    }
    assert probes[..|probes|] == probes;
    InsertsFit(probes, |s|);
    SortedFit(list, |s|);
    var sorted := Sorted(list);
    r := s;
    for i := 0 to |sorted|
      invariant Fit(sorted[..i], |s|) && r == InsertedAll(s, sorted[..i])
    {
      assert sorted[..i + 1][..i] == sorted[..i];
      r := r[..sorted[i].pos] + sorted[i].text + r[sorted[i].pos..];
    }
    assert sorted[..|sorted|] == sorted;
  }

  // --- All at once -------------------------------------------------------------------------

  /** Everything that goes in at offset `p`, the last inserted first. */
  function Here<T>(list: seq<Insert<T>>, p: nat): seq<T> {
    if list == [] then []
    else (if list[|list| - 1].pos == p then list[|list| - 1].text else []) + Here(list[..|list| - 1], p)
  }

  /** The source from `p` on, with every insertion at its own offset. */
  function Woven<T>(s: seq<T>, list: seq<Insert<T>>, p: nat): seq<T>
    requires p <= |s|
    decreases |s| - p
  {
    Here(list, p) + (if p == |s| then [] else [s[p]] + Woven(s, list, p + 1))
  }

  /** What is woven behind an offset, what goes in there aside. */
  function Behind<T>(s: seq<T>, list: seq<Insert<T>>, z: nat): seq<T>
    requires z <= |s|
  {
    if z == |s| then [] else [s[z]] + Woven(s, list, z + 1)
  }

  lemma {:induction false} NothingHere<T>(list: seq<Insert<T>>, p: nat)
    requires forall i :: 0 <= i < |list| ==> list[i].pos != p
    ensures Here(list, p) == []
    decreases |list|
  {
    if list != [] {
      NothingHere(list[..|list| - 1], p);
    }
  }

  /** Before the first insertion the source is as it was. */
  lemma {:induction false} PlainBefore<T>(s: seq<T>, list: seq<Insert<T>>, from: nat, p: nat)
    requires from <= p <= |s| && forall i :: 0 <= i < |list| ==> list[i].pos >= p
    ensures Woven(s, list, from) == s[from..p] + Woven(s, list, p)
    decreases p - from
  {
    if from < p {
      NothingHere(list, from);
      PlainBefore(s, list, from + 1, p);
      assert s[from..p] == [s[from]] + s[from + 1..p];
    } else {
      assert s[from..p] == [];
    }
  }

  lemma HereMore<T>(list: seq<Insert<T>>, x: Insert<T>, p: nat)
    ensures Here(list + [x], p) == (if x.pos == p then x.text else []) + Here(list, p)
  {
    assert (list + [x])[..|list|] == list;
  }

  lemma WovenHere<T>(s: seq<T>, list: seq<Insert<T>>, p: nat)
    requires p <= |s|
    ensures Woven(s, list, p) == Here(list, p) + Behind(s, list, p)
  {
  }

  lemma {:induction false} PlainAfter<T>(s: seq<T>, list: seq<Insert<T>>, x: Insert<T>, p: nat)
    requires x.pos < p <= |s|
    ensures Woven(s, list + [x], p) == Woven(s, list, p)
    decreases |s| - p
  {
    HereMore(list, x, p);
    hide Here;
    assert [] + Here(list, p) == Here(list, p);
    if p < |s| {
      PlainAfter(s, list, x, p + 1);
    }
  }

  lemma SameBehind<T>(s: seq<T>, list: seq<Insert<T>>, x: Insert<T>)
    requires x.pos <= |s|
    ensures Behind(s, list + [x], x.pos) == Behind(s, list, x.pos)
  {
    if x.pos < |s| {
      PlainAfter(s, list, x, x.pos + 1);
    }
  }

  lemma Regroup<T>(a: seq<T>, b: seq<T>, c: seq<T>)
    ensures a + (b + c) == a + b + c
  {
  }

  lemma OneMoreHere<T>(s: seq<T>, list: seq<Insert<T>>, x: Insert<T>)
    requires x.pos <= |s|
    ensures Woven(s, list + [x], x.pos) == x.text + Woven(s, list, x.pos)
  {
    hide Here, Woven, Behind;
    HereMore(list, x, x.pos);
    SameBehind(s, list, x);
    WovenHere(s, list, x.pos);
    WovenHere(s, list + [x], x.pos);
    Regroup(x.text, Here(list, x.pos), Behind(s, list, x.pos));
  }

  lemma OneMore<T>(s: seq<T>, list: seq<Insert<T>>, x: Insert<T>)
    requires x.pos <= |s| && forall i :: 0 <= i < |list| ==> list[i].pos >= x.pos
    ensures x.pos <= |Woven(s, list, 0)|
    ensures Woven(s, list + [x], 0) == Inserted(Woven(s, list, 0), x)
  {
    hide Woven;
    var t, rest := Woven(s, list, 0), Woven(s, list, x.pos);
    PlainBefore(s, list, 0, x.pos);
    PlainBefore(s, list + [x], 0, x.pos);
    OneMoreHere(s, list, x);
    var head := s[0..x.pos];
    assert t == head + rest && |head| == x.pos;
    assert t[..x.pos] == head && t[x.pos..] == rest;
    assert head + (x.text + rest) == head + x.text + rest;
  }

  /** One by one, back to front, is all at once: no insertion disturbs another's offset. */
  lemma {:induction false} BackToFrontIsAtOnce<T>(s: seq<T>, list: seq<Insert<T>>)
    requires BackToFront(list) && Fit(list, |s|)
    ensures InsertedAll(s, list) == Woven(s, list, 0)
    decreases |list|
  {
    if list == [] {
      NoInsertions(s, 0);
    } else {
      var init, last := list[..|list| - 1], list[|list| - 1];
      BackToFrontIsAtOnce(s, init);
      forall i | 0 <= i < |init| ensures init[i].pos >= last.pos {
        assert Precedes(list[i], list[|list| - 1]);
      }
      OneMore(s, init, last);
      assert init + [last] == list;
    }
  }

  lemma {:induction false} NoInsertions<T>(s: seq<T>, p: nat)
    requires p <= |s|
    ensures Woven(s, [], p) == s[p..]
    decreases |s| - p
  {
    if p < |s| {
      NoInsertions(s, p + 1);
      assert s[p..] == [s[p]] + s[p + 1..];
    }
  }

  // --- Deleting what was inserted -----------------------------------------------------------

  /** Which characters of the woven text were inserted. */
  function Marks(s: string, list: seq<Insert<char>>, p: nat): (r: seq<bool>)
    requires p <= |s|
    ensures |r| == |Woven(s, list, p)|
    decreases |s| - p
  {
    seq(|Here(list, p)|, _ => true) + (if p == |s| then [] else [false] + Marks(s, list, p + 1))
  }

  function Kept(t: string, marks: seq<bool>): string
    requires |t| == |marks|
  {
    if t == "" then "" else (if marks[0] then "" else [t[0]]) + Kept(t[1..], marks[1..])
  }

  lemma KeptFirst(t: string, marks: seq<bool>)
    requires |t| == |marks| && t != ""
    ensures Kept(t, marks) == (if marks[0] then "" else [t[0]]) + Kept(t[1..], marks[1..])
  {
  }

  lemma {:induction false} KeptSplits(t: string, u: string, marks: seq<bool>, more: seq<bool>)
    requires |t| == |marks| && |u| == |more|
    ensures Kept(t + u, marks + more) == Kept(t, marks) + Kept(u, more)
    decreases |t|
  {
    if t == "" {
      assert t + u == u && marks + more == more;
    } else {
      KeptSplits(t[1..], u, marks[1..], more);
      var whole, all := t + u, marks + more;
      assert whole[1..] == t[1..] + u && all[1..] == marks[1..] + more && whole[0] == t[0] && all[0] == marks[0];
      KeptFirst(whole, all);
      KeptFirst(t, marks);
      hide Kept;
    }
  }

  lemma {:induction false} NoneKept(t: string, marks: seq<bool>)
    requires |t| == |marks| && forall i :: 0 <= i < |marks| ==> marks[i]
    ensures Kept(t, marks) == ""
    decreases |t|
  {
    if t != "" {
      NoneKept(t[1..], marks[1..]);
    }
  }

  lemma WovenStep(s: string, list: seq<Insert<char>>, p: nat)
    requires p < |s|
    ensures Woven(s, list, p) == Here(list, p) + ([s[p]] + Woven(s, list, p + 1))
    ensures Marks(s, list, p) == seq(|Here(list, p)|, _ => true) + ([false] + Marks(s, list, p + 1))
  {
  }

  lemma {:induction false} DeletingRestores(s: string, list: seq<Insert<char>>, p: nat)
    requires p <= |s|
    ensures Kept(Woven(s, list, p), Marks(s, list, p)) == s[p..]
    decreases |s| - p
  {
    var here := Here(list, p);
    var inside := seq(|here|, _ => true);
    NoneKept(here, inside);
    if p == |s| {
      assert here + "" == here && inside + [] == inside;
    } else {
      DeletingRestores(s, list, p + 1);
      WovenStep(s, list, p);
      hide Woven, Marks, Here;
      KeptSplits(here, [s[p]] + Woven(s, list, p + 1), inside, [false] + Marks(s, list, p + 1));
      KeptSplits([s[p]], Woven(s, list, p + 1), [false], Marks(s, list, p + 1));
      assert Kept([s[p]], [false]) == [s[p]];
      hide Kept;
      assert "" + ([s[p]] + s[p + 1..]) == s[p..];
    }
  }

  // --- Wrapping ------------------------------------------------------------------------------

  /** No two end-points at one offset. */
  predicate Apart(probes: seq<Probe>) {
    forall i, j :: 0 <= i < j < |probes| ==> EndsApart(probes[i], probes[j])
  }

  predicate EndsApart(p: Probe, q: Probe) {
    p.start != q.start && p.start != q.end && p.end != q.start && p.end != q.end
  }

  predicate Inner(p: Probe, q: Probe) { q.start < p.start && p.end < q.end }

  predicate Nesting(probes: seq<Probe>) {
    forall i, j :: 0 <= i < |probes| && 0 <= j < |probes| && i != j ==> Compatible(probes[i], probes[j])
  }

  predicate Compatible(p: Probe, q: Probe) {
    p.end <= q.start || q.end <= p.start || Inner(p, q) || Inner(q, p)
  }

  /** The source strictly inside a span, with the insertions strictly inside it. */
  function Between(s: string, list: seq<Insert<char>>, p: nat, z: nat): string
    requires p < z <= |s|
    decreases z - p
  {
    [s[p]] + (if p + 1 == z then "" else Here(list, p + 1) + Between(s, list, p + 1, z))
  }

  lemma FourInARow(a: string, c: string, rest: string, b: string)
    ensures a + (c + (rest + b)) == a + (c + rest) + b
  {
    assert c + (rest + b) == (c + rest) + b;
  }

  lemma {:induction false} WovenSplits(s: string, list: seq<Insert<char>>, p: nat, z: nat)
    requires p < z <= |s|
    ensures Woven(s, list, p) == Here(list, p) + Between(s, list, p, z) + Woven(s, list, z)
    decreases z - p
  {
    var rest := if p + 1 < z then Here(list, p + 1) + Between(s, list, p + 1, z) else "";
    FourInARow(Here(list, p), [s[p]], rest, Woven(s, list, z));
    assert Between(s, list, p, z) == [s[p]] + rest;
    if p + 1 < z {
      WovenSplits(s, list, p + 1, z);
    } else {
      assert rest + Woven(s, list, z) == Woven(s, list, z);
    }
    assert Woven(s, list, p) == Here(list, p) + ([s[p]] + Woven(s, list, p + 1));
    hide Woven, Between, Here;
  }

  /** Where no other insertion has its offset, an insertion stands alone. */
  lemma {:induction false} OnlyOneHere(list: seq<Insert<char>>, k: nat)
    requires k < |list| && forall i :: 0 <= i < |list| && i != k ==> list[i].pos != list[k].pos
    ensures Here(list, list[k].pos) == list[k].text
    decreases |list|
  {
    var init, last := list[..|list| - 1], list[|list| - 1];
    if k == |list| - 1 {
      NothingHere(init, last.pos);
      assert last.text + "" == last.text;
    } else {
      OnlyOneHere(init, k);
      assert "" + list[k].text == list[k].text;
    }
  }

  lemma {:induction false} InsertsAt(probes: seq<Probe>, m: nat)
    requires m < |probes|
    ensures Inserts(probes)[2 * m] == Insert(probes[m].start, 0, probes[m].open)
    ensures Inserts(probes)[2 * m + 1] == Insert(probes[m].end, 1, CLOSE)
    decreases |probes|
  {
    if m < |probes| - 1 {
      InsertsAt(probes[..|probes| - 1], m);
    }
  }

  /** Which probe an insertion is from, and which of its two it is. */
  lemma Halves(i: nat) returns (m: nat, x: nat)
    ensures i == 2 * m + x && x < 2
  {
    m, x := i / 2, i % 2;
  }

  /** With distinct end-points only an empty span's own two insertions share an offset. */
  lemma OnlyEmptySpansMeet(probes: seq<Probe>, m: nat, x: nat, i: nat)
    requires Apart(probes) && m < |probes| && x < 2 && i < 2 * |probes| && i != 2 * m + x
    requires probes[m].start < probes[m].end
    ensures Inserts(probes)[i].pos != Inserts(probes)[2 * m + x].pos
  {
    hide Inserts;
    var l, y := Halves(i);
    InsertsAt(probes, m);
    InsertsAt(probes, l);
    if m < l { assert EndsApart(probes[m], probes[l]); }
    if l < m { assert EndsApart(probes[l], probes[m]); }
  }

  /** An insertion of a probe has its offset to itself, sorted as well. */
  lemma StandsAlone(probes: seq<Probe>, m: nat, x: nat)
    requires Apart(probes) && m < |probes| && x < 2 && probes[m].start < probes[m].end
    ensures Here(Sorted(Inserts(probes)), Inserts(probes)[2 * m + x].pos) == Inserts(probes)[2 * m + x].text
  {
    hide Here, Sorted, Inserts, Apart;
    var list, sorted := Inserts(probes), Sorted(Inserts(probes));
    var own := list[2 * m + x];
    SortedKeeps(list);
    assert own in multiset(list);
    var k :| 0 <= k < |sorted| && sorted[k] == own by {
      assert own in multiset(sorted);
      assert own in sorted;
    }
    forall l | 0 <= l < |sorted| && l != k ensures sorted[l].pos != own.pos {
      if sorted[l].pos == own.pos {
        TwoPlaces(sorted, list, if k < l then k else l, if k < l then l else k);
        var p, q :| 0 <= p < q < |list| && list[p].pos == list[q].pos == own.pos;
        OnlyEmptySpansMeet(probes, m, x, if p == 2 * m + x then q else p);
      }
    }
    OnlyOneHere(sorted, k);
  }

  /** Two places of one list are two places of any reordering of it. */
  lemma TwoPlaces<T>(s: seq<T>, t: seq<T>, i: nat, j: nat)
    requires multiset(s) == multiset(t) && i < j < |s|
    ensures exists k, l :: 0 <= k < l < |t| && ((t[k] == s[i] && t[l] == s[j]) || (t[k] == s[j] && t[l] == s[i]))
  {
    var k :| 0 <= k < |t| && t[k] == s[i] by {
      assert s[i] in multiset(s);
      assert s[i] in t;
    }
    Without(t, k);
    Without(s, i);
    var rest := t[..k] + t[k + 1..];
    assert s[j] in s[..i] + s[i + 1..] by {
      assert (s[..i] + s[i + 1..])[j - 1] == s[j];
    }
    assert s[j] in multiset(s[..i] + s[i + 1..]);
    assert s[j] in multiset(rest);
    var l :| 0 <= l < |rest| && rest[l] == s[j];
    var m := if l < k then l else l + 1;
    assert t[m] == s[j] && m != k;
  }

  lemma Without<T>(t: seq<T>, k: nat)
    requires k < |t|
    ensures multiset(t[..k] + t[k + 1..]) == multiset(t) - multiset{t[k]}
  {
    assert t == t[..k] + [t[k]] + t[k + 1..];
  }

  /** What is woven before a span. */
  function Up(s: string, list: seq<Insert<char>>, p: nat): string
    requires p <= |s|
    decreases p
  {
    if p == 0 then "" else Up(s, list, p - 1) + Here(list, p - 1) + [s[p - 1]]
  }

  lemma {:induction false} UpTo(s: string, list: seq<Insert<char>>, p: nat)
    requires p <= |s|
    ensures Woven(s, list, 0) == Up(s, list, p) + Woven(s, list, p)
    decreases p
  {
    if p > 0 {
      UpTo(s, list, p - 1);
      var before, here, behind := Up(s, list, p - 1), Here(list, p - 1), Woven(s, list, p);
      assert Woven(s, list, p - 1) == here + ([s[p - 1]] + behind);
      assert Up(s, list, p) == before + here + [s[p - 1]];
      hide Woven, Up, Here;
      assert before + (here + ([s[p - 1]] + behind)) == (before + here + [s[p - 1]]) + behind;
    } else {
      assert "" + Woven(s, list, 0) == Woven(s, list, 0);
    }
  }

  /**
   Each span ends up wrapped by its own probe: the text is what comes before, the
   probe's opening, the span with what was inserted inside it, the closing, and the rest.
   */
  lemma EachSpanIsWrapped(s: string, probes: seq<Probe>, m: nat)
    requires Within(probes, |s|) && Apart(probes) && m < |probes| && probes[m].start < probes[m].end
    ensures Fit(Sorted(Inserts(probes)), |s|)
    ensures var list, p := Sorted(Inserts(probes)), probes[m];
            InsertedAll(s, list) ==
              Up(s, list, p.start) + p.open + Between(s, list, p.start, p.end) + CLOSE + Behind(s, list, p.end)
  {
    AllAtOnce(s, probes);
    var list, p := Sorted(Inserts(probes)), probes[m];
    hide InsertedAll, Here, Sorted, Inserts, Apart;
    OwnTexts(probes, m);
    UpTo(s, list, p.start);
    WovenSplits(s, list, p.start, p.end);
    assert Woven(s, list, p.end) == CLOSE + Behind(s, list, p.end);
    hide Woven, Behind, Up, Between;
    var up, inner, behind := Up(s, list, p.start), Between(s, list, p.start, p.end), Behind(s, list, p.end);
    Regrouped(up, p.open, inner, CLOSE, behind);
  }

  lemma Regrouped(a: string, b: string, c: string, d: string, e: string)
    ensures a + (b + c + (d + e)) == a + b + c + d + e
  {
  }

  /** What the script makes of a file is everything woven in at once. */
  lemma AllAtOnce(s: string, probes: seq<Probe>)
    requires Within(probes, |s|)
    ensures Fit(Sorted(Inserts(probes)), |s|)
    ensures InsertedAll(s, Sorted(Inserts(probes))) == Woven(s, Sorted(Inserts(probes)), 0)
  {
    InsertsFit(probes, |s|);
    SortedFit(Inserts(probes), |s|);
    SortedKeeps(Inserts(probes));
    BackToFrontIsAtOnce(s, Sorted(Inserts(probes)));
  }

  lemma OwnTexts(probes: seq<Probe>, m: nat)
    requires Apart(probes) && m < |probes| && probes[m].start < probes[m].end
    ensures Here(Sorted(Inserts(probes)), probes[m].start) == probes[m].open
    ensures Here(Sorted(Inserts(probes)), probes[m].end) == CLOSE
  {
    hide Here, Sorted, Inserts, Apart;
    InsertsAt(probes, m);
    StandsAlone(probes, m, 0);
    StandsAlone(probes, m, 1);
  }

  lemma {:induction false} BetweenSplits(s: string, list: seq<Insert<char>>, p: nat, q: nat, z: nat)
    requires p < q < z <= |s|
    ensures Between(s, list, p, z) == Between(s, list, p, q) + Here(list, q) + Between(s, list, q, z)
    decreases z - p
  {
    var here, inner := Here(list, q), Between(s, list, q, z);
    if p + 1 == q {
      OneBetween(s, list, p, q, z);
      hide Here, Between;
      Regroup([s[p]], here, inner);
    } else {
      BetweenSplits(s, list, p + 1, q, z);
      var next, first := Here(list, p + 1), Between(s, list, p + 1, q);
      MoreBetween(s, list, p, q);
      MoreBetween(s, list, p, z);
      hide Between, Here;
      PushedIn([s[p]], next, first, here, inner);
    }
  }

  lemma OneBetween(s: string, list: seq<Insert<char>>, p: nat, q: nat, z: nat)
    requires p + 1 == q < z <= |s|
    ensures Between(s, list, p, q) == [s[p]]
    ensures Between(s, list, p, z) == [s[p]] + (Here(list, q) + Between(s, list, q, z))
  {
  }

  lemma MoreBetween(s: string, list: seq<Insert<char>>, p: nat, z: nat)
    requires p + 1 < z <= |s|
    ensures Between(s, list, p, z) == [s[p]] + (Here(list, p + 1) + Between(s, list, p + 1, z))
  {
  }

  lemma PushedIn(a: string, b: string, c: string, d: string, e: string)
    ensures a + (b + (c + d + e)) == a + (b + c) + d + e
  {
  }

  /** Wrappers are properly nested: a span holds the whole wrapper of a probe nested in it, span and all. */
  lemma WrappersNest(s: string, probes: seq<Probe>, i: nat, j: nat)
    requires Within(probes, |s|) && Apart(probes) && i < |probes| && j < |probes|
    requires probes[j].start < probes[j].end && Inner(probes[j], probes[i])
    ensures var list, p, q := Sorted(Inserts(probes)), probes[i], probes[j];
            Between(s, list, p.start, p.end) ==
              Between(s, list, p.start, q.start) + q.open + Between(s, list, q.start, q.end) + CLOSE
                + Between(s, list, q.end, p.end)
  {
    hide Between, Here, Sorted, Inserts, Apart;
    var list, p, q := Sorted(Inserts(probes)), probes[i], probes[j];
    OwnTexts(probes, j);
    BetweenSplits(s, list, p.start, q.start, p.end);
    BetweenSplits(s, list, q.start, q.end, p.end);
    var a, b, c := Between(s, list, p.start, q.start), Between(s, list, q.start, q.end), Between(s, list, q.end, p.end);
    Flattened(a, q.open, b, CLOSE, c);
  }

  lemma Flattened(a: string, b: string, c: string, d: string, e: string)
    ensures a + b + (c + d + e) == a + b + c + d + e
  {
  }

  /** Of two disjoint spans one whole wrapper stands before the other. */
  lemma WrappersStandApart(s: string, probes: seq<Probe>, i: nat, j: nat)
    requires Within(probes, |s|) && Apart(probes) && i < |probes| && j < |probes|
    requires probes[i].start < probes[i].end < probes[j].start < probes[j].end
    ensures Fit(Sorted(Inserts(probes)), |s|)
    ensures var list, p, q := Sorted(Inserts(probes)), probes[i], probes[j];
            InsertedAll(s, list) ==
              Up(s, list, p.start)
              + (p.open + Between(s, list, p.start, p.end) + CLOSE)
              + Between(s, list, p.end, q.start)
              + (q.open + Between(s, list, q.start, q.end) + CLOSE)
              + Behind(s, list, q.end)
  {
    AllAtOnce(s, probes);
    var list, p, q := Sorted(Inserts(probes)), probes[i], probes[j];
    hide InsertedAll, Here, Sorted, Inserts, Apart, Between, Up;
    OwnTexts(probes, i);
    OwnTexts(probes, j);
    UpTo(s, list, p.start);
    WovenSplits(s, list, p.start, p.end);
    WovenSplits(s, list, p.end, q.start);
    WovenSplits(s, list, q.start, q.end);
    WovenHere(s, list, q.end);
    hide Woven, Behind;
    RegroupedTwice(Up(s, list, p.start), p.open, Between(s, list, p.start, p.end), CLOSE,
                   Between(s, list, p.end, q.start), q.open, Between(s, list, q.start, q.end), Behind(s, list, q.end));
  }

  lemma RegroupedTwice(a: string, b: string, c: string, d: string, e: string, f: string, g: string, h: string)
    ensures a + (b + c + (d + e + (f + g + (d + h)))) == a + (b + c + d) + e + (f + g + d) + h
  {
    Regroup(d, e, f + g + (d + h));
    assert a + (b + c + (d + e + (f + g + (d + h)))) == a + (b + c + d) + (e + (f + g + (d + h)));
    assert f + g + (d + h) == (f + g + d) + h;
  }
}
