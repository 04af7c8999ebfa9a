/**
 The same loop with every inserted text told apart: which probe's opening or closing it
 is. The marked text spells the spliced one, and on it "wrapped" can be said of the text
 alone, for any spans.
 */
module SpliceMarks {
  import opened Splice

  datatype Mark = Source(at: nat) | Opening(m: nat) | Closing(m: nat)

  function Plain(n: nat): seq<Mark> { seq(n, k requires 0 <= k => Source(k)) }

  function Tagged(probes: seq<Probe>): (r: seq<Insert<Mark>>)
    ensures |r| == 2 * |probes|
  {
    if probes == [] then []
    else
      var m := |probes| - 1;
      Tagged(probes[..m]) + [Insert(probes[m].start, 0, [Opening(m)]), Insert(probes[m].end, 1, [Closing(m)])]
  }

  lemma {:induction false} TaggedAt(probes: seq<Probe>, m: nat)
    requires m < |probes|
    ensures Tagged(probes)[2 * m] == Insert(probes[m].start, 0, [Opening(m)])
    ensures Tagged(probes)[2 * m + 1] == Insert(probes[m].end, 1, [Closing(m)])
    decreases |probes|
  {
    if m < |probes| - 1 {
      TaggedAt(probes[..|probes| - 1], m);
    }
  }

  lemma TaggedFit(probes: seq<Probe>, n: nat)
    requires Within(probes, n)
    ensures Fit(Sorted(Tagged(probes)), n)
  {
    hide Tagged, Sorted;
    forall i | 0 <= i < 2 * |probes| ensures Tagged(probes)[i].pos <= n {
      var m, x := Halves(i);
      TaggedAt(probes, m);
    }
    SortedFit(Tagged(probes), n);
  }

  /** What the loop makes of a text of `n` characters, mark by mark. */
  function Marked(n: nat, probes: seq<Probe>): seq<Mark>
    requires Within(probes, n)
  {
    TaggedFit(probes, n);
    InsertedAll(Plain(n), Sorted(Tagged(probes)))
  }

  // --- It is the spliced text ------------------------------------------------------------------

  predicate Known(s: string, probes: seq<Probe>, x: Mark) {
    if x.Source? then x.at < |s| else x.m < |probes|
  }

  function SpellOne(s: string, probes: seq<Probe>, x: Mark): string
    requires Known(s, probes, x)
  {
    match x
    case Source(k) => [s[k]]
    case Opening(m) => probes[m].open
    case Closing(_) => CLOSE
  }

  predicate AllKnown(s: string, probes: seq<Probe>, t: seq<Mark>) {
    forall i :: 0 <= i < |t| ==> Known(s, probes, t[i])
  }

  function Spell(s: string, probes: seq<Probe>, t: seq<Mark>): string
    requires AllKnown(s, probes, t)
  {
    if t == [] then "" else SpellOne(s, probes, t[0]) + Spell(s, probes, t[1..])
  }

  lemma {:induction false} SpellSplits(s: string, probes: seq<Probe>, t: seq<Mark>, u: seq<Mark>)
    requires AllKnown(s, probes, t) && AllKnown(s, probes, u)
    ensures AllKnown(s, probes, t + u) && Spell(s, probes, t + u) == Spell(s, probes, t) + Spell(s, probes, u)
    decreases |t|
  {
    if t == [] {
      assert t + u == u;
    } else {
      SpellSplits(s, probes, t[1..], u);
      assert (t + u)[1..] == t[1..] + u && (t + u)[0] == t[0];
      var a, b, c := SpellOne(s, probes, t[0]), Spell(s, probes, t[1..]), Spell(s, probes, u);
      assert a + (b + c) == a + b + c;
    }
  }

  /** The two lists go in at the same offsets in the same order, and the texts are what the marks spell. */
  ghost predicate Spells(s: string, probes: seq<Probe>, tags: seq<Insert<Mark>>, list: seq<Insert<char>>) {
    && |tags| == |list|
    && forall k :: 0 <= k < |tags| ==> SpellsAt(s, probes, tags[k], list[k])
  }

  ghost predicate SpellsAt(s: string, probes: seq<Probe>, x: Insert<Mark>, y: Insert<char>) {
    && x.pos == y.pos && x.order == y.order
    && AllKnown(s, probes, x.text) && Spell(s, probes, x.text) == y.text
  }

  lemma TagsSpell(s: string, probes: seq<Probe>)
    ensures Spells(s, probes, Tagged(probes), Inserts(probes))
  {
    hide Tagged, Inserts;
    forall k | 0 <= k < 2 * |probes| ensures SpellsAt(s, probes, Tagged(probes)[k], Inserts(probes)[k]) {
      var m, x := Halves(k);
      TaggedAt(probes, m);
      InsertsAt(probes, m);
      SpelledAlone(s, probes, Opening(m));
      SpelledAlone(s, probes, Closing(m));
    }
  }

  lemma SpelledAlone(s: string, probes: seq<Probe>, x: Mark)
    requires Known(s, probes, x)
    ensures AllKnown(s, probes, [x]) && Spell(s, probes, [x]) == SpellOne(s, probes, x)
  {
    assert [x][1..] == [];
    assert Spell(s, probes, []) == "";
  }

  lemma {:induction false} PlacedSpells(s: string, probes: seq<Probe>, tags: seq<Insert<Mark>>, list: seq<Insert<char>>,
                                       x: Insert<Mark>, y: Insert<char>)
    requires Spells(s, probes, tags, list) && SpellsAt(s, probes, x, y)
    ensures Spells(s, probes, Placed(tags, x), Placed(list, y))
    decreases |tags|
  {
    hide SpellsAt;
    if tags != [] {
      var last := |tags| - 1;
      assert Precedes(tags[last], x) == Precedes(list[last], y)
          by { SameOrder(s, probes, tags[last], list[last], x, y); }
      PlacedSpells(s, probes, tags[..last], list[..last], x, y);
    }
  }

  lemma SameOrder(s: string, probes: seq<Probe>, a: Insert<Mark>, b: Insert<char>, x: Insert<Mark>, y: Insert<char>)
    requires SpellsAt(s, probes, a, b) && SpellsAt(s, probes, x, y)
    ensures Precedes(a, x) == Precedes(b, y)
  {
  }

  lemma {:induction false} SortedSpells(s: string, probes: seq<Probe>, tags: seq<Insert<Mark>>, list: seq<Insert<char>>)
    requires Spells(s, probes, tags, list)
    ensures Spells(s, probes, Sorted(tags), Sorted(list))
    decreases |tags|
  {
    hide SpellsAt, Placed;
    if tags != [] {
      var last := |tags| - 1;
      SortedSpells(s, probes, tags[..last], list[..last]);
      PlacedSpells(s, probes, Sorted(tags[..last]), Sorted(list[..last]), tags[last], list[last]);
    }
  }

  lemma {:induction false} HereSpells(s: string, probes: seq<Probe>, tags: seq<Insert<Mark>>, list: seq<Insert<char>>,
      p: nat)
    requires Spells(s, probes, tags, list)
    ensures AllKnown(s, probes, Here(tags, p)) && Spell(s, probes, Here(tags, p)) == Here(list, p)
    decreases |tags|
  {
    if tags != [] {
      var last := |tags| - 1;
      HereSpells(s, probes, tags[..last], list[..last], p);
      assert SpellsAt(s, probes, tags[last], list[last]);
      var own := if tags[last].pos == p then tags[last].text else [];
      SpellSplits(s, probes, own, Here(tags[..last], p));
    }
  }

  lemma {:induction false} WovenSpells(s: string, probes: seq<Probe>, tags: seq<Insert<Mark>>, list: seq<Insert<char>>,
      p: nat)
    requires Spells(s, probes, tags, list) && p <= |s|
    ensures AllKnown(s, probes, Woven(Plain(|s|), tags, p))
    ensures Spell(s, probes, Woven(Plain(|s|), tags, p)) == Woven(s, list, p)
    decreases |s| - p
  {
    HereSpells(s, probes, tags, list, p);
    hide Here, Spell, Spells;
    if p < |s| {
      WovenSpells(s, probes, tags, list, p + 1);
      SpelledAlone(s, probes, Source(p));
      SpellSplits(s, probes, [Source(p)], Woven(Plain(|s|), tags, p + 1));
      SpellSplits(s, probes, Here(tags, p), [Source(p)] + Woven(Plain(|s|), tags, p + 1));
    } else {
      assert Here(tags, p) + [] == Here(tags, p) && Here(list, p) + "" == Here(list, p);
    }
  }

  /** Marks forgotten, it is what the script writes. */
  lemma MarkedSpellsTheText(s: string, probes: seq<Probe>)
    requires Within(probes, |s|)
    ensures AllKnown(s, probes, Marked(|s|, probes))
    ensures Fit(Sorted(Inserts(probes)), |s|)
    ensures Spell(s, probes, Marked(|s|, probes)) == InsertedAll(s, Sorted(Inserts(probes)))
  {
    hide Spell, Spells, Sorted, Tagged, Inserts, Woven, InsertedAll;
    AllAtOnce(s, probes);
    TagsSpell(s, probes);
    SortedSpells(s, probes, Tagged(probes), Inserts(probes));
    WovenSpells(s, probes, Sorted(Tagged(probes)), Sorted(Inserts(probes)), 0);
    TaggedFit(probes, |s|);
    SortedKeeps(Tagged(probes));
    BackToFrontIsAtOnce(Plain(|s|), Sorted(Tagged(probes)));
  }

  // --- Which mark stands before which --------------------------------------------------------------

  ghost predicate Ahead<T(!new)>(t: seq<T>, a: T, b: T) {
    exists i, j :: 0 <= i < j < |t| && t[i] == a && t[j] == b
  }

  ghost predicate NoTwice<T(!new)>(t: seq<T>) {
    forall i, j :: 0 <= i < j < |t| ==> t[i] != t[j]
  }

  lemma OneWay<T(!new)>(t: seq<T>, a: T, b: T)
    requires NoTwice(t) && Ahead(t, a, b)
    ensures !Ahead(t, b, a)
  {
    var i, j :| 0 <= i < j < |t| && t[i] == a && t[j] == b;
    forall k, l | 0 <= k < l < |t| ensures !(t[k] == b && t[l] == a) {
      assert k < j ==> t[k] != t[j];
      assert j < k ==> t[j] != t[k];
      assert i < l ==> t[i] != t[l];
    }
  }

  lemma Occurs<T(!new)>(t: seq<T>, a: T) returns (i: nat)
    requires a in t
    ensures i < |t| && t[i] == a
  {
    i :| i < |t| && t[i] == a;
  }

  lemma PutInKeeps<T(!new)>(t: seq<T>, pos: nat, x: T, a: T, b: T)
    requires pos <= |t| && Ahead(t, a, b)
    ensures Ahead(t[..pos] + [x] + t[pos..], a, b)
  {
    var i, j :| 0 <= i < j < |t| && t[i] == a && t[j] == b;
    var u := t[..pos] + [x] + t[pos..];
    assert u[if i < pos then i else i + 1] == a && u[if j < pos then j else j + 1] == b;
  }

  lemma PutInBefore<T(!new)>(t: seq<T>, pos: nat, x: T, i: nat)
    requires pos <= i < |t|
    ensures Ahead(t[..pos] + [x] + t[pos..], x, t[i])
  {
    var u := t[..pos] + [x] + t[pos..];
    assert u[pos] == x && u[i + 1] == t[i];
  }

  lemma PutInBehind<T(!new)>(t: seq<T>, pos: nat, x: T, i: nat)
    requires i < pos <= |t|
    ensures Ahead(t[..pos] + [x] + t[pos..], t[i], x)
  {
    var u := t[..pos] + [x] + t[pos..];
    assert u[pos] == x && u[i] == t[i];
  }

  // --- The sort ------------------------------------------------------------------------------------

  /** A placed element stands behind exactly those that precede it, and moves nobody else. */
  lemma {:induction false} PlacedOrder<T(!new)>(list: seq<Insert<T>>, x: Insert<T>, i: nat)
    requires BackToFront(list) && i < |list|
    ensures if Precedes(list[i], x) then Ahead(Placed(list, x), list[i], x) else Ahead(Placed(list, x), x, list[i])
    decreases |list|
  {
    var last := |list| - 1;
    var r := Placed(list, x);
    if Precedes(list[last], x) {
      assert Precedes(list[i], x) by { assert i < last ==> Precedes(list[i], list[last]); }
      assert r == list + [x];
      assert r[i] == list[i] && r[|list|] == x;
    } else if i < last {
      PlacedOrder(list[..last], x, i);
      AheadOfMore(Placed(list[..last], x), list[last], list[i], x);
      AheadOfMore(Placed(list[..last], x), list[last], x, list[i]);
    } else {
      PlacedKeepsAll(list[..last], x);
      assert x in multiset(Placed(list[..last], x));
      var k := Occurs(Placed(list[..last], x), x);
      assert r[k] == x && r[|list|] == list[last];
    }
  }

  lemma AheadOfMore<T(!new)>(t: seq<T>, x: T, a: T, b: T)
    ensures Ahead(t, a, b) ==> Ahead(t + [x], a, b)
  {
    if Ahead(t, a, b) {
      var i, j :| 0 <= i < j < |t| && t[i] == a && t[j] == b;
      assert (t + [x])[i] == a && (t + [x])[j] == b;
    }
  }

  lemma {:induction false} PlacedKeepsOrder<T(!new)>(list: seq<Insert<T>>, x: Insert<T>, i: nat, j: nat)
    requires i < j < |list|
    ensures Ahead(Placed(list, x), list[i], list[j])
    decreases |list|
  {
    var last := |list| - 1;
    var r := Placed(list, x);
    if Precedes(list[last], x) {
      assert r[i] == list[i] && r[j] == list[j];
    } else if j < last {
      PlacedKeepsOrder(list[..last], x, i, j);
      AheadOfMore(Placed(list[..last], x), list[last], list[i], list[j]);
    } else {
      PlacedKeepsAll(list[..last], x);
      assert list[..last][i] == list[i];
      assert list[i] in multiset(list[..last]);
      assert list[i] in multiset(Placed(list[..last], x));
      var k := Occurs(Placed(list[..last], x), list[i]);
      assert r[k] == list[i] && r[|list|] == list[last];
    }
  }

  lemma SortedLast<T(!new)>(list: seq<Insert<T>>)
    requires list != []
    ensures Sorted(list) == Placed(Sorted(list[..|list| - 1]), list[|list| - 1])
  {
  }

  /** Of two in the list, the earlier stays ahead exactly if it precedes or ties. */
  lemma {:induction false} SortedOrder<T(!new)>(list: seq<Insert<T>>, i: nat, j: nat)
    requires i < j < |list|
    ensures if Precedes(list[i], list[j]) then Ahead(Sorted(list), list[i], list[j])
            else Ahead(Sorted(list), list[j], list[i])
    decreases |list|
  {
    hide Placed, Sorted, BackToFront;
    var last := |list| - 1;
    var init := list[..last];
    SortedKeeps(init);
    SortedLast(list);
    if j < last {
      SortedOrder(init, i, j);
      var a := if Precedes(list[i], list[j]) then list[i] else list[j];
      var b := if Precedes(list[i], list[j]) then list[j] else list[i];
      var k, l :| 0 <= k < l < |Sorted(init)| && Sorted(init)[k] == a && Sorted(init)[l] == b;
      PlacedKeepsOrder(Sorted(init), list[last], k, l);
    } else {
      assert init[i] == list[i] && list[i] in multiset(init);
      assert list[i] in multiset(Sorted(init));
      var k := Occurs(Sorted(init), list[i]);
      PlacedOrder(Sorted(init), list[last], k);
    }
  }

  // --- The loop ------------------------------------------------------------------------------------

  /** One mark each, none of them a source character's, all different. */
  ghost predicate Single(list: seq<Insert<Mark>>) {
    && (forall k :: 0 <= k < |list| ==> |list[k].text| == 1 && !list[k].text[0].Source?)
    && (forall k, l :: 0 <= k < l < |list| ==> list[k].text[0] != list[l].text[0])
  }

  ghost predicate Contents(r: seq<Mark>, n: nat, list: seq<Insert<Mark>>)
    requires Single(list)
  {
    && NoTwice(r)
    && (forall k: nat :: k < n ==> Source(k) in r)
    && (forall l :: 0 <= l < |list| ==> list[l].text[0] in r)
    && (forall x :: x in r ==> (x.Source? && x.at < n) || exists l :: 0 <= l < |list| && list[l].text[0] == x)
  }

  /** What is inserted later stands further ahead, and each at its own offset in the source. */
  ghost predicate InOrder(r: seq<Mark>, n: nat, list: seq<Insert<Mark>>)
    requires Single(list)
  {
    && (forall k, l :: 0 <= k < l < |list| ==> Ahead(r, list[l].text[0], list[k].text[0]))
    && (forall k: nat, l :: k < n && 0 <= l < |list| && k < list[l].pos ==> Ahead(r, Source(k), list[l].text[0]))
    && (forall k: nat, l :: k < n && 0 <= l < |list| && list[l].pos <= k ==> Ahead(r, list[l].text[0], Source(k)))
  }

  /** Before the offset of the last insertion the text is still the source. */
  lemma HeadIsPlain(n: nat, init: seq<Insert<Mark>>, x: Insert<Mark>)
    requires BackToFront(init + [x]) && Fit(init + [x], n)
    ensures Fit(init, n) && x.pos <= |InsertedAll(Plain(n), init)|
    ensures InsertedAll(Plain(n), init)[..x.pos] == Plain(x.pos)
  {
    var list := init + [x];
    forall i | 0 <= i < |init| ensures init[i].pos >= x.pos && init[i].pos <= n {
      assert list[i] == init[i] && Precedes(list[i], list[|init|]);
    }
    forall i, j | 0 <= i < j < |init| ensures Precedes(init[i], init[j]) {
      assert Precedes(list[i], list[j]);
    }
    BackToFrontIsAtOnce(Plain(n), init);
    assert list[|init|].pos <= n;
    PlainBefore(Plain(n), init, 0, x.pos);
    assert Plain(n)[0..x.pos] == Plain(x.pos);
  }

  lemma {:induction false} MarksInOrder(n: nat, list: seq<Insert<Mark>>)
    requires BackToFront(list) && Fit(list, n) && Single(list)
    ensures Contents(InsertedAll(Plain(n), list), n, list) && InOrder(InsertedAll(Plain(n), list), n, list)
    decreases |list|
  {
    hide BackToFront, Fit;
    if list == [] {
      assert forall k: nat :: k < n ==> Plain(n)[k] == Source(k);
      NothingInserted(n);
    } else {
      var init, x := list[..|list| - 1], list[|list| - 1];
      assert list == init + [x];
      HeadIsPlain(n, init, x);
      InitToo(list, n);
      MarksInOrder(n, init);
      var r := InsertedAll(Plain(n), init);
      OneMoreMark(n, r, init, x);
      LastInserted(n, init, x);
    }
  }

  lemma NothingInserted(n: nat)
    ensures Fit<Mark>([], n) && InsertedAll(Plain(n), []) == Plain(n)
  {
  }

  lemma InitToo(list: seq<Insert<Mark>>, n: nat)
    requires list != [] && BackToFront(list) && Fit(list, n)
    ensures BackToFront(list[..|list| - 1]) && Fit(list[..|list| - 1], n)
  {
  }

  lemma LastInserted(n: nat, init: seq<Insert<Mark>>, x: Insert<Mark>)
    requires Fit(init + [x], n) && Fit(init, n) && x.pos <= |InsertedAll(Plain(n), init)|
    ensures var r := InsertedAll(Plain(n), init);
            InsertedAll(Plain(n), init + [x]) == r[..x.pos] + x.text + r[x.pos..]
  {
    assert (init + [x])[..|init|] == init;
  }

  lemma OneMoreMark(n: nat, r: seq<Mark>, init: seq<Insert<Mark>>, x: Insert<Mark>)
    requires Single(init + [x]) && Single(init)
    requires Contents(r, n, init) && InOrder(r, n, init)
    requires x.pos <= |r| && r[..x.pos] == Plain(x.pos)
    ensures Contents(r[..x.pos] + x.text + r[x.pos..], n, init + [x])
    ensures InOrder(r[..x.pos] + x.text + r[x.pos..], n, init + [x])
  {
    ContentsGrow(n, r, init, x);
    OrderGrows(n, r, init, x);
  }

  lemma ContentsGrow(n: nat, r: seq<Mark>, init: seq<Insert<Mark>>, x: Insert<Mark>)
    requires Single(init + [x]) && Single(init) && Contents(r, n, init) && x.pos <= |r|
    ensures Contents(r[..x.pos] + x.text + r[x.pos..], n, init + [x])
  {
    hide NoTwice;
    var list, tag := init + [x], x.text[0];
    var u := r[..x.pos] + x.text + r[x.pos..];
    assert list[|init|] == x && forall l :: 0 <= l < |init| ==> list[l] == init[l];
    assert forall l :: 0 <= l < |init| ==> list[l].text[0] != list[|init|].text[0];
    assert tag !in r;
    assert x.text == [tag];
    PutInHas(r, x.pos, tag);
    PutInOnce(r, x.pos, tag);
    forall y | y in u ensures (y.Source? && y.at < n) || exists l :: 0 <= l < |list| && list[l].text[0] == y {
      if y == tag {
        assert list[|init|].text[0] == y;
      } else if !(y.Source? && y.at < n) {
        var l :| 0 <= l < |init| && init[l].text[0] == y;
        assert list[l].text[0] == y;
      }
    }
  }

  lemma PutInOnce<T(!new)>(t: seq<T>, pos: nat, x: T)
    requires pos <= |t| && NoTwice(t) && x !in t
    ensures NoTwice(t[..pos] + [x] + t[pos..])
  {
    var u := t[..pos] + [x] + t[pos..];
    assert forall k :: 0 <= k < |u| ==> u[k] == if k < pos then t[k] else if k == pos then x else t[k - 1];
  }

  lemma PutInHas<T(!new)>(t: seq<T>, pos: nat, x: T)
    requires pos <= |t|
    ensures forall y :: y in t[..pos] + [x] + t[pos..] <==> y in t || y == x
  {
    var u := t[..pos] + [x] + t[pos..];
    forall y | y in t ensures y in u {
      var i := Occurs(t, y);
      assert u[if i < pos then i else i + 1] == y;
    }
    assert u[pos] == x;
  }

  lemma MarksGrow(n: nat, r: seq<Mark>, init: seq<Insert<Mark>>, x: Insert<Mark>, k: nat, l: nat)
    requires Single(init + [x]) && Single(init)
    requires Contents(r, n, init) && InOrder(r, n, init)
    requires x.pos <= |r| && r[..x.pos] == Plain(x.pos) && k < l <= |init|
    ensures var list := init + [x]; Ahead(r[..x.pos] + x.text + r[x.pos..], list[l].text[0], list[k].text[0])
  {
    hide Ahead;
    var list, tag := init + [x], x.text[0];
    assert forall i :: 0 <= i < x.pos ==> r[i] == r[..x.pos][i] == Source(i);
    assert list[|init|] == x && x.text == [tag] && list[k] == init[k];
    if l < |init| {
      assert list[l] == init[l];
      PutInKeeps(r, x.pos, tag, init[l].text[0], init[k].text[0]);
    } else {
      var i := Occurs(r, init[k].text[0]);
      PutInBefore(r, x.pos, tag, i);
    }
  }

  lemma SourcesGrow(n: nat, r: seq<Mark>, init: seq<Insert<Mark>>, x: Insert<Mark>, k: nat, l: nat)
    requires Single(init + [x]) && Single(init)
    requires Contents(r, n, init) && InOrder(r, n, init)
    requires x.pos <= |r| && r[..x.pos] == Plain(x.pos) && k < n && l <= |init|
    ensures var (list, u) := (init + [x], r[..x.pos] + x.text + r[x.pos..]);
            if k < list[l].pos then Ahead(u, Source(k), list[l].text[0]) else Ahead(u, list[l].text[0], Source(k))
  {
    hide Ahead;
    var list, tag := init + [x], x.text[0];
    assert forall i :: 0 <= i < x.pos ==> r[i] == r[..x.pos][i] == Source(i);
    assert list[|init|] == x && x.text == [tag];
    if l < |init| {
      assert list[l] == init[l];
      if k < init[l].pos {
        PutInKeeps(r, x.pos, tag, Source(k), init[l].text[0]);
      } else {
        PutInKeeps(r, x.pos, tag, init[l].text[0], Source(k));
      }
    } else if k < x.pos {
      PutInBehind(r, x.pos, tag, k);
    } else {
      var i := Occurs(r, Source(k));
      PutInBefore(r, x.pos, tag, i);
    }
  }

  lemma OrderGrows(n: nat, r: seq<Mark>, init: seq<Insert<Mark>>, x: Insert<Mark>)
    requires Single(init + [x]) && Single(init)
    requires Contents(r, n, init) && InOrder(r, n, init)
    requires x.pos <= |r| && r[..x.pos] == Plain(x.pos)
    ensures InOrder(r[..x.pos] + x.text + r[x.pos..], n, init + [x])
  {
    hide Ahead, Contents;
    var list, u := init + [x], r[..x.pos] + x.text + r[x.pos..];
    forall k, l | 0 <= k < l < |list| ensures Ahead(u, list[l].text[0], list[k].text[0]) {
      MarksGrow(n, r, init, x, k, l);
    }
    forall k: nat, l | k < n && 0 <= l < |list|
      ensures k < list[l].pos ==> Ahead(u, Source(k), list[l].text[0])
      ensures list[l].pos <= k ==> Ahead(u, list[l].text[0], Source(k))
    {
      SourcesGrow(n, r, init, x, k, l);
    }
  }

  // --- Wrapped ---------------------------------------------------------------------------------------

  /** Between the opening and the closing of `m`. */
  ghost predicate Inside(t: seq<Mark>, m: nat, x: Mark) {
    Ahead(t, Opening(m), x) && Ahead(t, x, Closing(m))
  }

  /** Inside the wrapper of `i` stands the wrapper of `j` whole, or nothing of it. */
  ghost predicate Whole(t: seq<Mark>, i: nat, j: nat) {
    Inside(t, i, Opening(j)) <==> Inside(t, i, Closing(j))
  }

  ghost predicate AllWhole(t: seq<Mark>, count: nat) {
    forall i, j :: 0 <= i < count && 0 <= j < count && i != j ==> Whole(t, i, j)
  }

  lemma TaggedSingle(probes: seq<Probe>)
    ensures Single(Tagged(probes))
  {
    hide Tagged;
    forall k, l | 0 <= k <= l < 2 * |probes|
      ensures |Tagged(probes)[k].text| == 1 && !Tagged(probes)[k].text[0].Source?
      ensures |Tagged(probes)[l].text| == 1 && !Tagged(probes)[l].text[0].Source?
      ensures k < l ==> Tagged(probes)[k].text[0] != Tagged(probes)[l].text[0]
    {
      var m, x := Halves(k);
      var n, y := Halves(l);
      TaggedAt(probes, m);
      TaggedAt(probes, n);
    }
  }

  lemma SortedSingle(probes: seq<Probe>)
    ensures Single(Sorted(Tagged(probes)))
  {
    hide Tagged, Sorted;
    var list, sorted := Tagged(probes), Sorted(Tagged(probes));
    TaggedSingle(probes);
    SortedKeeps(list);
    forall k | 0 <= k < |sorted| ensures |sorted[k].text| == 1 && !sorted[k].text[0].Source? {
      assert sorted[k] in multiset(sorted);
      assert sorted[k] in multiset(list);
    }
    forall k, l | 0 <= k < l < |sorted| ensures sorted[k].text[0] != sorted[l].text[0] {
      TwoPlaces(sorted, list, k, l);
    }
  }

  /** Two inserts in the list's order have their marks in the text, the other way round. */
  lemma TheOtherWayRound(n: nat, t: seq<Mark>, sorted: seq<Insert<Mark>>, x: Insert<Mark>, y: Insert<Mark>)
    requires Single(sorted) && Contents(t, n, sorted) && InOrder(t, n, sorted) && Ahead(sorted, x, y)
    requires |x.text| == 1 && |y.text| == 1
    ensures Ahead(t, y.text[0], x.text[0]) && !Ahead(t, x.text[0], y.text[0])
  {
    var k, l :| 0 <= k < l < |sorted| && sorted[k] == x && sorted[l] == y;
    OneWay(t, y.text[0], x.text[0]);
  }

  /** Where the marks of two insertions stand, by their places in the unsorted list. */
  lemma MarksStand(n: nat, probes: seq<Probe>, i: nat, j: nat)
    requires Within(probes, n) && i < j < 2 * |probes|
    requires |Tagged(probes)[i].text| == 1 && |Tagged(probes)[j].text| == 1
    ensures var t, a, b := Marked(n, probes), Tagged(probes)[i].text[0], Tagged(probes)[j].text[0];
            && (Ahead(t, b, a) <==> Precedes(Tagged(probes)[i], Tagged(probes)[j]))
            && (Ahead(t, a, b) <==> !Precedes(Tagged(probes)[i], Tagged(probes)[j]))
  {
    hide Tagged, Sorted, InsertedAll, Ahead, Precedes, Fit, Single, Contents, InOrder, BackToFront;
    var list, sorted := Tagged(probes), Sorted(Tagged(probes));
    TaggedFit(probes, n);
    SortedKeeps(list);
    SortedSingle(probes);
    MarksInOrder(n, sorted);
    SortedOrder(list, i, j);
    if Precedes(list[i], list[j]) {
      TheOtherWayRound(n, Marked(n, probes), sorted, list[i], list[j]);
    } else {
      TheOtherWayRound(n, Marked(n, probes), sorted, list[j], list[i]);
    }
  }

  /** Each probe encloses exactly its own span of the source, whatever the other spans are. */
  lemma EnclosesItsSpan(n: nat, probes: seq<Probe>, m: nat, k: nat)
    requires Within(probes, n) && m < |probes| && k < n
    ensures Inside(Marked(n, probes), m, Source(k)) <==> probes[m].start <= k < probes[m].end
  {
    hide Tagged, Sorted, InsertedAll;
    var sorted, t := Sorted(Tagged(probes)), Marked(n, probes);
    TaggedFit(probes, n);
    SortedKeeps(Tagged(probes));
    SortedSingle(probes);
    MarksInOrder(n, sorted);
    TaggedAt(probes, m);
    var open, close := Tagged(probes)[2 * m], Tagged(probes)[2 * m + 1];
    assert open in multiset(Tagged(probes)) && close in multiset(Tagged(probes));
    assert open in multiset(sorted) && close in multiset(sorted);
    var a := Occurs(sorted, open);
    var b := Occurs(sorted, close);
    if k < open.pos { OneWay(t, Source(k), Opening(m)); } else { assert Ahead(t, Opening(m), Source(k)); }
    if k < close.pos { assert Ahead(t, Source(k), Closing(m)); } else { OneWay(t, Closing(m), Source(k)); }
  }

  /** The four ends of two probes, the first of them earlier in the list. */
  lemma EndsStand(n: nat, probes: seq<Probe>, i: nat, j: nat)
    requires Within(probes, n) && i < j < |probes|
    ensures var t, p, q := Marked(n, probes), probes[i], probes[j];
            && (Ahead(t, Opening(i), Opening(j)) <==> p.start < q.start)
            && (Ahead(t, Opening(j), Opening(i)) <==> q.start <= p.start)
            && (Ahead(t, Closing(i), Closing(j)) <==> p.end < q.end)
            && (Ahead(t, Closing(j), Closing(i)) <==> q.end <= p.end)
            && (Ahead(t, Opening(j), Closing(i)) <==> q.start <= p.end)
            && (Ahead(t, Closing(i), Opening(j)) <==> p.end < q.start)
            && (Ahead(t, Opening(i), Closing(j)) <==> p.start <= q.end)
            && (Ahead(t, Closing(j), Opening(i)) <==> q.end < p.start)
  {
    hide Tagged, Marked, Ahead;
    TaggedAt(probes, i);
    TaggedAt(probes, j);
    MarksStand(n, probes, 2 * i, 2 * j);
    MarksStand(n, probes, 2 * i, 2 * j + 1);
    MarksStand(n, probes, 2 * i + 1, 2 * j);
    MarksStand(n, probes, 2 * i + 1, 2 * j + 1);
  }

  /**
   Apart, or one inside the other; of two that share an end, the earlier in the list is the inner
   at the start and the outer at the end.
   */
  predicate Clean(p: Probe, q: Probe) {
    || p.end < q.start || q.end < p.start
    || (p.start < q.start && q.end <= p.end)
    || (q.start <= p.start && p.end < q.end)
  }

  /** Exactly when every wrapper is whole inside every other: for any spans, empty and overlapping ones included. */
  lemma AllWholeIff(n: nat, probes: seq<Probe>)
    requires Within(probes, n)
    ensures AllWhole(Marked(n, probes), |probes|) <==>
            forall i, j :: 0 <= i < j < |probes| ==> Clean(probes[i], probes[j])
  {
    hide Marked, Ahead, Clean;
    var t := Marked(n, probes);
    forall i, j | 0 <= i < j < |probes| ensures Clean(probes[i], probes[j]) <==> Whole(t, i, j) && Whole(t, j, i) {
      WholeIff(n, probes, i, j);
    }
    if forall i, j :: 0 <= i < j < |probes| ==> Clean(probes[i], probes[j]) {
      forall i, j | 0 <= i < |probes| && 0 <= j < |probes| && i != j ensures Whole(t, i, j) {
        if i < j { assert Clean(probes[i], probes[j]); } else { assert Clean(probes[j], probes[i]); }
      }
    }
  }

  lemma WholeIff(n: nat, probes: seq<Probe>, i: nat, j: nat)
    requires Within(probes, n) && i < j < |probes|
    ensures Clean(probes[i], probes[j]) <==> Whole(Marked(n, probes), i, j) && Whole(Marked(n, probes), j, i)
  {
    hide Marked, Ahead;
    EndsStand(n, probes, i, j);
  }

  /** Two spans disjoint or nested, ends shared or not. */
  predicate Laminar(p: Probe, q: Probe) {
    || p.end <= q.start || q.end <= p.start
    || (p.start <= q.start && q.end <= p.end)
    || (q.start <= p.start && p.end <= q.end)
  }

  /** `p` comes earlier in the list. */
  predicate NoClash(p: Probe, q: Probe) {
    && p.end != q.start && q.end != p.start
    && (p.start == q.start ==> p.end < q.end)
    && (p.end == q.end ==> p.start < q.start)
  }

  /**
   Of disjoint or nested spans, none empty: every wrapper is whole exactly when no span ends
   where another starts and, of two that share an end, the list has them in the right order.
   */
  lemma WrappedIffNoClash(n: nat, probes: seq<Probe>)
    requires Within(probes, n) && forall i :: 0 <= i < |probes| ==> probes[i].start < probes[i].end
    requires forall i, j :: 0 <= i < j < |probes| ==> Laminar(probes[i], probes[j])
    ensures AllWhole(Marked(n, probes), |probes|) <==>
            forall i, j :: 0 <= i < j < |probes| ==> NoClash(probes[i], probes[j])
  {
    hide Marked, AllWhole;
    AllWholeIff(n, probes);
    forall i, j | 0 <= i < j < |probes| ensures Clean(probes[i], probes[j]) <==> NoClash(probes[i], probes[j]) {
      assert Laminar(probes[i], probes[j]);
    }
  }

  /** Where one span ends and another starts the wrappers cross, wherever the two are in the list. */
  lemma TouchingSpansCross(n: nat, probes: seq<Probe>, i: nat, j: nat)
    requires Within(probes, n) && i < |probes| && j < |probes|
    requires probes[i].start < probes[i].end == probes[j].start < probes[j].end
    ensures var t := Marked(n, probes);
            Ahead(t, Opening(i), Opening(j)) && Ahead(t, Opening(j), Closing(i)) && Ahead(t, Closing(i), Closing(j))
  {
    hide Marked, Ahead;
    if i < j { EndsStand(n, probes, i, j); } else { EndsStand(n, probes, j, i); }
  }
}
