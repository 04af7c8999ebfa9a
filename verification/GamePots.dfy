/** Main pot and side pots of a Hold'em hand, from what each seat put in. */
module GamePots {

  datatype Stake = Stake(seat: nat, amount: nat, folded: bool)

  datatype Pot = Pot(amount: nat, eligible: seq<nat>)

  function Min(a: nat, b: nat): nat { if a <= b then a else b }

  /** What the seats put in, nobody counted beyond `cap`. */
  function UpTo(stakes: seq<Stake>, cap: nat): nat {
    if stakes == [] then 0 else Min(stakes[0].amount, cap) + UpTo(stakes[1..], cap)
  }

  function Total(stakes: seq<Stake>): nat {
    if stakes == [] then 0 else stakes[0].amount + Total(stakes[1..])
  }

  /** The layer of chips between two levels. */
  function Layer(stakes: seq<Stake>, low: nat, high: nat): nat
    requires low <= high
  {
    if stakes == [] then 0
    else Min(stakes[0].amount, high) - Min(stakes[0].amount, low) + Layer(stakes[1..], low, high)
  }

  /** The chips above the highest live level. */
  function Above(stakes: seq<Stake>, low: nat): nat {
    if stakes == [] then 0 else stakes[0].amount - Min(stakes[0].amount, low) + Above(stakes[1..], low)
  }

  /** The live seats that put in at least `level`, in seat order. */
  function Eligible(stakes: seq<Stake>, level: nat): seq<nat> {
    if stakes == [] then []
    else
      (if !stakes[0].folded && stakes[0].amount >= level then [stakes[0].seat] else []) + Eligible(stakes[1..], level)
  }

  // --- The levels: the live seats' distinct positive amounts, ascending --------------------

  ghost predicate Ascending(levels: seq<nat>) {
    forall i, j :: 0 <= i < j < |levels| ==> levels[i] < levels[j]
  }

  ghost predicate Over(levels: seq<nat>, low: nat) {
    forall k :: 0 <= k < |levels| ==> low < levels[k]
  }

  ghost predicate LiveAt(stakes: seq<Stake>, level: nat) {
    exists j :: 0 <= j < |stakes| && !stakes[j].folded && stakes[j].amount == level
  }

  function Inserted(x: nat, levels: seq<nat>): seq<nat> {
    if levels == [] || x < levels[0] then [x] + levels
    else if x == levels[0] then levels
    else [levels[0]] + Inserted(x, levels[1..])
  }

  function Levels(stakes: seq<Stake>): seq<nat> {
    if stakes == [] then []
    else if !stakes[0].folded && stakes[0].amount > 0 then Inserted(stakes[0].amount, Levels(stakes[1..]))
    else Levels(stakes[1..])
  }

  lemma {:induction false} InsertedKeeps(x: nat, levels: seq<nat>)
    requires Ascending(levels)
    ensures Ascending(Inserted(x, levels))
    ensures forall y :: y in Inserted(x, levels) <==> y == x || y in levels
  {
    if levels != [] && x > levels[0] {
      InsertedKeeps(x, levels[1..]);
      assert levels == [levels[0]] + levels[1..];
    }
  }

  lemma {:induction false} LevelsAre(stakes: seq<Stake>)
    ensures Ascending(Levels(stakes)) && Over(Levels(stakes), 0)
    ensures forall y :: y in Levels(stakes) <==> y > 0 && LiveAt(stakes, y)
  {
    if stakes != [] {
      LevelsAre(stakes[1..]);
      var rest := Levels(stakes[1..]);
      InsertedKeeps(stakes[0].amount, rest);
      forall y ensures y in Levels(stakes) <==> y > 0 && LiveAt(stakes, y) {
        LiveHere(stakes, y);
      }
      assert forall k :: 0 <= k < |Levels(stakes)| ==> Levels(stakes)[k] in Levels(stakes);
    }
  }

  lemma LiveHere(stakes: seq<Stake>, y: nat)
    requires stakes != []
    ensures LiveAt(stakes, y) <==> (!stakes[0].folded && stakes[0].amount == y) || LiveAt(stakes[1..], y)
  {
    if LiveAt(stakes[1..], y) {
      var j :| 0 <= j < |stakes[1..]| && !stakes[1..][j].folded && stakes[1..][j].amount == y;
      assert stakes[j + 1] == stakes[1..][j];
    }
    if LiveAt(stakes, y) {
      var j :| 0 <= j < |stakes| && !stakes[j].folded && stakes[j].amount == y;
      assert j > 0 ==> stakes[1..][j - 1] == stakes[j];
    }
  }

  // --- The pots ------------------------------------------------------------------------------

  function Layers(stakes: seq<Stake>, levels: seq<nat>, low: nat): seq<Pot>
    requires Ascending(levels) && Over(levels, low)
  {
    if levels == [] then []
    else
      var amount := Layer(stakes, low, levels[0]);
      (if amount > 0 then [Pot(amount, Eligible(stakes, levels[0]))] else []) + Layers(stakes, levels[1..], levels[0])
  }

  /** Folded chips above the highest live level join the top pot, or make one of their own. */
  function WithRest(stakes: seq<Stake>, pots: seq<Pot>, rest: nat): seq<Pot> {
    if rest == 0 then pots
    else if pots == [] then [Pot(rest, Eligible(stakes, 0))]
    else pots[..|pots| - 1] + [pots[|pots| - 1].(amount := pots[|pots| - 1].amount + rest)]
  }

  /** The highest live level; 0 when nobody live put anything in. */
  function Top(levels: seq<nat>): nat { if levels == [] then 0 else levels[|levels| - 1] }

  function Pots(stakes: seq<Stake>): seq<Pot> {
    LevelsAre(stakes);
    var levels := Levels(stakes);
    WithRest(stakes, Layers(stakes, levels, 0), Above(stakes, Top(levels)))
  }

  lemma NoLayers(stakes: seq<Stake>, low: nat)
    ensures Layers(stakes, [], low) == []
  {
  }

  method BuildPots(stakes: seq<Stake>) returns (pots: seq<Pot>)
    ensures pots == Pots(stakes)
  {
    hide Layers, Levels, Layer, Eligible, Above;
    LevelsAre(stakes);
    var levels := Levels(stakes);
    pots := [];
    var prev := 0;
    for i := 0 to |levels|
      invariant prev == Top(levels[..i])
      invariant Over(levels[i..], prev)
      invariant pots + Layers(stakes, levels[i..], prev) == Layers(stakes, levels, 0)
    {
      HeadLayer(stakes, levels[i..], prev);
      var amount := Layer(stakes, prev, levels[i]);
      if amount > 0 {
        pots := pots + [Pot(amount, Eligible(stakes, levels[i]))];
      }
      assert levels[i..][1..] == levels[i + 1..];
      assert pots + Layers(stakes, levels[i + 1..], levels[i]) == Layers(stakes, levels, 0);
      prev := levels[i];
    }
    assert levels[..|levels|] == levels && levels[|levels|..] == [];
    assert Layers(stakes, [], prev) == [] by { NoLayers(stakes, prev); }
    var rest := Above(stakes, prev);
    if rest > 0 {
      if pots == [] {
        pots := [Pot(rest, Eligible(stakes, 0))];
      } else {
        var last := |pots| - 1;
        pots := pots[last := pots[last].(amount := pots[last].amount + rest)];
      }
    }
  }

  // --- Every chip is in exactly one pot --------------------------------------------------------

  function Sum(pots: seq<Pot>): nat {
    if pots == [] then 0 else pots[0].amount + Sum(pots[1..])
  }

  /** What `seat` could win: the pots it is eligible for. */
  function Winnable(pots: seq<Pot>, seat: nat): nat {
    if pots == [] then 0 else (if seat in pots[0].eligible then pots[0].amount else 0) + Winnable(pots[1..], seat)
  }

  lemma {:induction false} LayerIs(stakes: seq<Stake>, low: nat, high: nat)
    requires low <= high
    ensures Layer(stakes, low, high) == UpTo(stakes, high) - UpTo(stakes, low)
  {
    if stakes != [] { LayerIs(stakes[1..], low, high); }
  }

  lemma {:induction false} AboveIs(stakes: seq<Stake>, low: nat)
    ensures Above(stakes, low) == Total(stakes) - UpTo(stakes, low)
    ensures UpTo(stakes, 0) == 0
  {
    if stakes != [] { AboveIs(stakes[1..], low); }
  }

  lemma {:induction false} LayersSum(stakes: seq<Stake>, levels: seq<nat>, low: nat)
    requires Ascending(levels) && Over(levels, low)
    ensures Sum(Layers(stakes, levels, low))
            == UpTo(stakes, if levels == [] then low else Top(levels)) - UpTo(stakes, low)
    decreases levels
  {
    if levels != [] {
      LayerIs(stakes, low, levels[0]);
      LayersSum(stakes, levels[1..], levels[0]);
      if Layer(stakes, low, levels[0]) > 0 {
        var pots := Layers(stakes, levels, low);
        assert pots[1..] == Layers(stakes, levels[1..], levels[0]);
      } else {
        assert Layers(stakes, levels, low) == Layers(stakes, levels[1..], levels[0]);
      }
    }
  }

  lemma {:induction false} SumSplits(a: seq<Pot>, b: seq<Pot>, seat: nat)
    ensures Sum(a + b) == Sum(a) + Sum(b)
    ensures Winnable(a + b, seat) == Winnable(a, seat) + Winnable(b, seat)
  {
    if a == [] {
      assert a + b == b;
    } else {
      SumSplits(a[1..], b, seat);
      assert (a + b)[1..] == a[1..] + b;
    }
  }

  lemma RestAdds(stakes: seq<Stake>, pots: seq<Pot>, rest: nat, seat: nat)
    ensures Sum(WithRest(stakes, pots, rest)) == Sum(pots) + rest
    ensures Winnable(WithRest(stakes, pots, rest), seat) == Winnable(pots, seat)
              + (if seat in (if pots == [] then Eligible(stakes, 0) else pots[|pots| - 1].eligible) then rest else 0)
  {
    if pots != [] {
      var last := |pots| - 1;
      var fuller := pots[last].(amount := pots[last].amount + rest);
      SumSplits(pots[..last], [pots[last]], seat);
      SumSplits(pots[..last], [fuller], seat);
      assert pots == pots[..last] + [pots[last]];
      assert Sum([fuller]) == Sum([pots[last]]) + rest;
    }
  }

  /** Conservation: the pots hold what was put in, no chip lost and none made. */
  lemma PotsConserve(stakes: seq<Stake>)
    ensures Sum(Pots(stakes)) == Total(stakes)
  {
    LevelsAre(stakes);
    var levels := Levels(stakes);
    LayersSum(stakes, levels, 0);
    AboveIs(stakes, 0);
    AboveIs(stakes, Top(levels));
    RestAdds(stakes, Layers(stakes, levels, 0), Above(stakes, Top(levels)), 0);
  }

  // --- A seat can win from each other seat no more than it put in itself -----------------------

  ghost predicate SeatsDiffer(stakes: seq<Stake>) {
    forall i, j :: 0 <= i < j < |stakes| ==> stakes[i].seat != stakes[j].seat
  }

  lemma {:induction false} EligibleAre(stakes: seq<Stake>, level: nat, i: nat)
    requires SeatsDiffer(stakes) && i < |stakes|
    ensures stakes[i].seat in Eligible(stakes, level) <==> !stakes[i].folded && stakes[i].amount >= level
  {
    if i > 0 {
      EligibleAre(stakes[1..], level, i - 1);
      assert stakes[0].seat != stakes[i].seat;
    } else {
      OnlyTheirSeats(stakes[1..], level, stakes[0].seat);
    }
  }

  lemma {:induction false} OnlyTheirSeats(stakes: seq<Stake>, level: nat, seat: nat)
    requires forall s :: s in stakes ==> s.seat != seat
    ensures seat !in Eligible(stakes, level)
  {
    if stakes != [] { OnlyTheirSeats(stakes[1..], level, seat); }
  }

  /** A layer above what a seat put in is not for it to win. */
  lemma {:induction false} TooHighToWin(stakes: seq<Stake>, levels: seq<nat>, low: nat, i: nat)
    requires Ascending(levels) && Over(levels, low)
    requires SeatsDiffer(stakes) && i < |stakes| && Over(levels, stakes[i].amount)
    ensures Winnable(Layers(stakes, levels, low), stakes[i].seat) == 0
    decreases levels
  {
    if levels != [] {
      EligibleAre(stakes, levels[0], i);
      TooHighToWin(stakes, levels[1..], levels[0], i);
      HeadLayer(stakes, levels, low);
    }
  }

  lemma HeadLayer(stakes: seq<Stake>, levels: seq<nat>, low: nat)
    requires levels != [] && Ascending(levels) && Over(levels, low)
    ensures var pots := Layers(stakes, levels, low);
            var later := Layers(stakes, levels[1..], levels[0]);
            if Layer(stakes, low, levels[0]) == 0 then pots == later
            else
              && pots != [] && pots[0] == Pot(Layer(stakes, low, levels[0]), Eligible(stakes, levels[0]))
              && pots[1..] == later
  {
  }

  lemma {:induction false} LayersToWin(stakes: seq<Stake>, levels: seq<nat>, low: nat, i: nat)
    requires Ascending(levels) && Over(levels, low)
    requires SeatsDiffer(stakes) && i < |stakes| && !stakes[i].folded
    requires stakes[i].amount == low || stakes[i].amount in levels
    ensures Winnable(Layers(stakes, levels, low), stakes[i].seat) == UpTo(stakes, stakes[i].amount) - UpTo(stakes, low)
    decreases levels
  {
    if stakes[i].amount == low {
      TooHighToWin(stakes, levels, low, i);
    } else {
      EligibleAre(stakes, levels[0], i);
      LayerIs(stakes, low, levels[0]);
      HeadLayer(stakes, levels, low);
      assert levels == [levels[0]] + levels[1..];
      LayersToWin(stakes, levels[1..], levels[0], i);
    }
  }

  /** Some live seat stands at each level. */
  ghost predicate Held(stakes: seq<Stake>, levels: seq<nat>) {
    forall k :: 0 <= k < |levels| ==> LiveAt(stakes, levels[k])
  }

  lemma {:induction false} LayersAre(stakes: seq<Stake>, levels: seq<nat>, low: nat)
    requires Ascending(levels) && Over(levels, low) && Held(stakes, levels)
    ensures |Layers(stakes, levels, low)| == |levels|
    ensures forall k :: 0 <= k < |levels| ==>
              Layers(stakes, levels, low)[k].amount > 0 &&
              Layers(stakes, levels, low)[k].eligible == Eligible(stakes, levels[k])
    decreases levels
  {
    if levels != [] {
      var j :| 0 <= j < |stakes| && !stakes[j].folded && stakes[j].amount == levels[0];
      LayerHolds(stakes, low, levels[0], j);
      HeadLayer(stakes, levels, low);
      LayersAre(stakes, levels[1..], levels[0]);
      var pots := Layers(stakes, levels, low);
      assert forall k :: 0 < k < |levels| ==> pots[k] == pots[1..][k - 1] && levels[k] == levels[1..][k - 1];
    }
  }

  lemma {:induction false} LayerHolds(stakes: seq<Stake>, low: nat, high: nat, j: nat)
    requires low < high && j < |stakes| && stakes[j].amount >= high
    ensures Layer(stakes, low, high) > 0
  {
    if j > 0 { LayerHolds(stakes[1..], low, high, j - 1); }
  }

  lemma {:induction false} FoldedWinsNothing(stakes: seq<Stake>, levels: seq<nat>, low: nat, i: nat)
    requires Ascending(levels) && Over(levels, low)
    requires SeatsDiffer(stakes) && i < |stakes| && stakes[i].folded
    ensures Winnable(Layers(stakes, levels, low), stakes[i].seat) == 0
    decreases levels
  {
    if levels != [] {
      EligibleAre(stakes, levels[0], i);
      HeadLayer(stakes, levels, low);
      FoldedWinsNothing(stakes, levels[1..], levels[0], i);
    }
  }

  /** Who shares the chips above the highest live level. */
  lemma TopPot(stakes: seq<Stake>, levels: seq<nat>, i: nat)
    requires SeatsDiffer(stakes) && i < |stakes|
    requires levels == Levels(stakes) && Ascending(levels) && Over(levels, 0)
    ensures var layers := Layers(stakes, levels, 0);
            stakes[i].seat in (if layers == [] then Eligible(stakes, 0) else layers[|layers| - 1].eligible) <==>
              !stakes[i].folded && stakes[i].amount == Top(levels)
  {
    hide Layers, Levels, Eligible;
    LevelsAre(stakes);
    assert Held(stakes, levels) by { assert forall k :: 0 <= k < |levels| ==> levels[k] in levels; }
    LayersAre(stakes, levels, 0);
    EligibleAre(stakes, Top(levels), i);
    assert !stakes[i].folded && stakes[i].amount > 0 ==> LiveAt(stakes, stakes[i].amount);
  }

  lemma LayersPay(stakes: seq<Stake>, levels: seq<nat>, i: nat)
    requires SeatsDiffer(stakes) && i < |stakes|
    requires levels == Levels(stakes) && Ascending(levels) && Over(levels, 0)
    ensures Winnable(Layers(stakes, levels, 0), stakes[i].seat) ==
            if stakes[i].folded then 0 else UpTo(stakes, stakes[i].amount)
  {
    hide Layers, Levels, Winnable, UpTo;
    LevelsAre(stakes);
    AboveIs(stakes, 0);
    if stakes[i].folded {
      FoldedWinsNothing(stakes, levels, 0, i);
    } else {
      assert stakes[i].amount > 0 ==> LiveAt(stakes, stakes[i].amount);
      LayersToWin(stakes, levels, 0, i);
    }
  }

  /**
   The side-pot rule: a live seat can win from every seat as much as it put in itself,
   and only the seat that put in the most can win what is above every live amount.
   */
  lemma MayWinItsMatch(stakes: seq<Stake>, i: nat)
    requires SeatsDiffer(stakes) && i < |stakes|
    ensures Winnable(Pots(stakes), stakes[i].seat) ==
            if stakes[i].folded then 0
            else if stakes[i].amount == Top(Levels(stakes)) then Total(stakes)
            else UpTo(stakes, stakes[i].amount)
  {
    hide Layers, Levels, Eligible, Above, Total, UpTo, Winnable, WithRest;
    LevelsAre(stakes);
    var levels := Levels(stakes);
    var top := Top(levels);
    AboveIs(stakes, top);
    RestAdds(stakes, Layers(stakes, levels, 0), Above(stakes, top), stakes[i].seat);
    TopPot(stakes, levels, i);
    LayersPay(stakes, levels, i);
  }

  // --- No empty pot, none for a folded seat, each for fewer than the one before ----------------

  ghost predicate Live(stakes: seq<Stake>, seat: nat, level: nat) {
    exists j :: 0 <= j < |stakes| && !stakes[j].folded && stakes[j].seat == seat && stakes[j].amount >= level
  }

  lemma {:induction false} EligibleLive(stakes: seq<Stake>, level: nat, seat: nat)
    requires seat in Eligible(stakes, level)
    ensures Live(stakes, seat, level)
  {
    if !(!stakes[0].folded && stakes[0].amount >= level && stakes[0].seat == seat) {
      EligibleLive(stakes[1..], level, seat);
      var j :| 0 <= j < |stakes[1..]| && !stakes[1..][j].folded && stakes[1..][j].seat == seat
          && stakes[1..][j].amount >= level;
      assert stakes[j + 1] == stakes[1..][j];
    }
  }

  ghost predicate Narrower(later: Pot, earlier: Pot) {
    && (forall s :: s in later.eligible ==> s in earlier.eligible)
    && exists s :: s in earlier.eligible && s !in later.eligible
  }

  lemma EligibleNarrows(stakes: seq<Stake>, low: nat, high: nat)
    requires SeatsDiffer(stakes) && low < high && LiveAt(stakes, low)
    ensures forall s :: s in Eligible(stakes, high) ==> s in Eligible(stakes, low)
    ensures exists s :: s in Eligible(stakes, low) && s !in Eligible(stakes, high)
  {
    forall s | s in Eligible(stakes, high) ensures s in Eligible(stakes, low) {
      EligibleLive(stakes, high, s);
      var j :| 0 <= j < |stakes| && !stakes[j].folded && stakes[j].seat == s && stakes[j].amount >= high;
      EligibleAre(stakes, low, j);
    }
    var j :| 0 <= j < |stakes| && !stakes[j].folded && stakes[j].amount == low;
    EligibleAre(stakes, low, j);
    EligibleAre(stakes, high, j);
  }

  /** The level the `k`-th pot is for; with nothing live on the table, its one pot is for everyone live. */
  function Rung(levels: seq<nat>, k: nat): nat
    requires k < |levels| || levels == []
  {
    if levels == [] then 0 else levels[k]
  }

  lemma PotsAre(stakes: seq<Stake>)
    ensures var pots := Pots(stakes);
            var levels := Levels(stakes);
            && |pots| <= (if levels == [] then 1 else |levels|)
            && (forall k :: 0 <= k < |pots| ==>
                  pots[k].amount > 0 && pots[k].eligible == Eligible(stakes, Rung(levels, k)))
  {
    hide Layers, Levels, Eligible, Above, Layer;
    LevelsAre(stakes);
    var levels := Levels(stakes);
    assert Held(stakes, levels) by { assert forall k :: 0 <= k < |levels| ==> levels[k] in levels; }
    LayersAre(stakes, levels, 0);
  }

  /** The side pots' contenders shrink from pot to pot; nothing is offered to a folded seat. */
  lemma PotsNarrow(stakes: seq<Stake>)
    requires SeatsDiffer(stakes)
    ensures forall k :: 0 <= k < |Pots(stakes)| ==> Pots(stakes)[k].amount > 0 && NoneFolded(stakes, Pots(stakes)[k])
    ensures forall k :: 0 < k < |Pots(stakes)| ==> Narrower(Pots(stakes)[k], Pots(stakes)[k - 1])
  {
    hide Pots, Levels, Eligible;
    PotsAre(stakes);
    LevelsAre(stakes);
    var levels := Levels(stakes);
    var pots := Pots(stakes);
    forall k | 0 < k < |pots| ensures Narrower(pots[k], pots[k - 1]) {
      assert levels[k - 1] in levels;
      EligibleNarrows(stakes, levels[k - 1], levels[k]);
    }
    forall k | 0 <= k < |pots| ensures NoneFolded(stakes, pots[k]) {
      forall s | s in pots[k].eligible ensures Live(stakes, s, 0) {
        EligibleLive(stakes, Rung(levels, k), s);
      }
    }
  }

  ghost predicate NoneFolded(stakes: seq<Stake>, pot: Pot) {
    forall s :: s in pot.eligible ==> Live(stakes, s, 0)
  }
}
