/**
 The channel tree: a channel may sit under a collection of its own server, and
 deleting one takes everything under it along.

 The guards keep the graph a forest, one accepted change at a time. Deleting is
 exact on any graph, a looped one included.
 */
module Channels {
  import opened Columns
  import opened Wrappers

  const COLLECTION: int := 2

  datatype Channel = Channel(server: Option<string>, kind: int, parent: Option<int>)

  // --- Walking up ---------------------------------------------------------------------

  /** `n` steps up from `id`. */
  function Up(parents: map<int, int>, id: int, n: nat): Option<int> {
    if n == 0 then Some(id)
    else
      var at := Up(parents, id, n - 1);
      if at.Some? && at.value in parents then Some(parents[at.value]) else None
  }

  ghost predicate Above(parents: map<int, int>, x: int, id: int) {
    exists n: nat :: n >= 1 && Up(parents, id, n) == Some(x)
  }

  ghost predicate Acyclic(parents: map<int, int>) {
    forall x :: !Above(parents, x, x)
  }

  ghost predicate Closed(parents: map<int, int>, s: set<int>) {
    forall x :: x in s && x in parents ==> parents[x] in s
  }

  lemma {:induction false} StaysInside(parents: map<int, int>, s: set<int>, id: int, n: nat)
    requires Closed(parents, s) && id in s && Up(parents, id, n).Some?
    ensures Up(parents, id, n).value in s
  {
    if n == 0 {
      assert Up(parents, id, 0) == Some(id);
    } else {
      StaysInside(parents, s, id, n - 1);
      var at := Up(parents, id, n - 1).value;
      assert parents[at] in s;
    }
  }

  lemma {:induction false} UpAdds(parents: map<int, int>, id: int, m: nat, n: nat)
    requires Up(parents, id, m).Some?
    ensures Up(parents, id, m + n) == Up(parents, Up(parents, id, m).value, n)
  {
    if n > 0 {
      UpAdds(parents, id, m, n - 1);
      assert m + n - 1 == m + (n - 1);
    }
  }

  lemma {:induction false} UpPrefix(parents: map<int, int>, id: int, m: nat, n: nat)
    requires m <= n && Up(parents, id, n).Some?
    ensures Up(parents, id, m).Some?
  {
    if m < n {
      UpPrefix(parents, id, m, n - 1);
    }
  }

  function Reversed(s: seq<int>): (r: seq<int>)
    ensures |r| == |s|
    ensures forall k :: 0 <= k < |s| ==> r[k] == s[|s| - 1 - k]
  {
    seq(|s|, k requires 0 <= k < |s| => s[|s| - 1 - k])
  }

  lemma ReversedHas(s: seq<int>, x: int)
    ensures x in Reversed(s) <==> x in s
  {
    if x in s {
      var k :| 0 <= k < |s| && s[k] == x;
      assert Reversed(s)[|s| - 1 - k] == x;
    }
  }

  /** `near` is the walk from `id` up to where it first leads back into itself, or out. */
  ghost predicate Walked(parents: map<int, int>, id: int, near: seq<int>, seen: set<int>, at: int) {
    && seen == {id} + (set x | x in near)
    && Up(parents, id, |near|) == Some(at) && at in seen
    && (forall k :: 0 <= k < |near| ==> Up(parents, id, k + 1) == Some(near[k]))
    && (forall x :: x in seen && x != at ==> x in parents && parents[x] in seen)
  }

  lemma WalkIsAll(parents: map<int, int>, id: int, near: seq<int>, seen: set<int>, at: int, x: int)
    requires Walked(parents, id, near, seen, at) && (at in parents ==> parents[at] in seen) && x != id
    ensures x in near <==> Above(parents, x, id)
  {
    if n: nat :| n >= 1 && Up(parents, id, n) == Some(x) {
      StaysInside(parents, seen, id, n);
    }
    if x in near {
      var k: nat :| k < |near| && near[k] == x;
      assert Up(parents, id, k + 1) == Some(x);
    }
  }

  /** The collections above `id`, outermost first. A loop ends the walk at the first one seen twice. */
  method AncestorChain(parents: map<int, int>, id: int) returns (chain: seq<int>)
    ensures forall x :: x in chain <==> x != id && Above(parents, x, id)
    ensures forall k :: 0 <= k < |chain| ==> Up(parents, id, |chain| - k) == Some(chain[k])
    ensures forall i, j :: 0 <= i < j < |chain| ==> chain[i] != chain[j]
  {
    hide Above, Closed;
    var seen := {id};
    var near: seq<int> := [];
    var at := id;
    while at in parents && parents[at] !in seen
      invariant Walked(parents, id, near, seen, at) && seen <= {id} + parents.Values
      invariant forall i, j :: 0 <= i < j < |near| ==> near[i] != near[j]
      invariant id !in near
      decreases {id} + parents.Values - seen
    {
      var parent := parents[at];
      seen := seen + {parent};
      near := near + [parent];
      at := parent;
    }
    chain := Reversed(near);
    forall x ensures x in chain <==> x != id && Above(parents, x, id) {
      ReversedHas(near, x);
      if x != id {
        WalkIsAll(parents, id, near, seen, at, x);
      }
    }
  }

  // --- The rows ------------------------------------------------------------------------

  function Parents(rows: map<int, Channel>): map<int, int> {
    map id | id in rows && rows[id].parent.Some? :: rows[id].parent.value
  }

  /** What the loop check reads: the parents of one server's rows. */
  function ServerParents(rows: map<int, Channel>, server: string): map<int, int> {
    map id | id in rows && rows[id].server == Some(server) && rows[id].parent.Some? :: rows[id].parent.value
  }

  predicate CollectionHere(rows: map<int, Channel>, id: int, server: string) {
    id in rows && rows[id].server == Some(server) && rows[id].kind == COLLECTION
  }

  /** Every parent is a collection of the same server. */
  predicate Grouped(rows: map<int, Channel>) {
    forall id :: id in rows && rows[id].parent.Some? ==>
      rows[id].server.Some? && CollectionHere(rows, rows[id].parent.value, rows[id].server.value)
  }

  /** No dangling parent, no foreign one, no loop. */
  ghost predicate Forest(rows: map<int, Channel>) {
    Grouped(rows) && Acyclic(Parents(rows))
  }

  lemma {:induction false} OneServersWalk(rows: map<int, Channel>, server: string, id: int, n: nat)
    requires Grouped(rows) && id in rows && rows[id].server == Some(server)
    ensures Up(ServerParents(rows, server), id, n) == Up(Parents(rows), id, n)
    ensures Up(Parents(rows), id, n).Some? ==>
              var x := Up(Parents(rows), id, n).value; x in rows && rows[x].server == Some(server)
  {
    if n > 0 {
      OneServersWalk(rows, server, id, n - 1);
    }
  }

  /** Fewer links walk no further. */
  lemma {:induction false} FewerLinks(less: map<int, int>, more: map<int, int>, id: int, n: nat)
    requires (forall x :: x in less ==> x in more && more[x] == less[x]) && Up(less, id, n).Some?
    ensures Up(more, id, n) == Up(less, id, n)
  {
    if n > 0 {
      FewerLinks(less, more, id, n - 1);
    }
  }

  lemma FewerLinksFewerLoops(less: map<int, int>, more: map<int, int>, x: int)
    requires forall y :: y in less ==> y in more && more[y] == less[y]
    ensures Above(less, x, x) ==> Above(more, x, x)
  {
    if n: nat :| n >= 1 && Up(less, x, n) == Some(x) {
      FewerLinks(less, more, x, n);
      assert Up(more, x, n) == Some(x);
    }
  }

  lemma FewerLinksStayAcyclic(less: map<int, int>, more: map<int, int>)
    requires forall x :: x in less ==> x in more && more[x] == less[x]
    requires Acyclic(more)
    ensures Acyclic(less)
  {
    forall x ensures !Above(less, x, x) {
      FewerLinksFewerLoops(less, more, x);
    }
  }

  /** A walk that never steps through `x` is the same once `x` has a new parent. */
  lemma {:induction false} WalkAround(parents: map<int, int>, linked: map<int, int>, x: int, p: int, y: int, n: nat)
    requires linked == parents[x := p]
    requires forall i: nat :: i < n ==> Up(linked, y, i) != Some(x)
    ensures Up(linked, y, n) == Up(parents, y, n)
  {
    if n > 0 {
      WalkAround(parents, linked, x, p, y, n - 1);
    }
  }

  /** A loop the new link closes would go through it, and it leads nowhere that comes back. */
  lemma LoopWasThere(parents: map<int, int>, x: int, p: int, y: int)
    requires x != p && !Above(parents, x, p)
    ensures Above(parents[x := p], y, y) ==> Above(parents, y, y)
  {
    var linked := parents[x := p];
    if n: nat :| n >= 1 && Up(linked, y, n) == Some(y) {
      if i: nat :| i < n && Up(linked, y, i) == Some(x) {
        UpAdds(linked, y, n, i);
        UpAdds(linked, y, i, n);
        NeverBack(parents, x, p, n);
      } else {
        WalkAround(parents, linked, x, p, y, n);
        assert Up(parents, y, n) == Some(y);
      }
    }
  }

  /** Hanging `x` under something that is neither `x` nor below it closes no loop. */
  lemma NoNewLoop(parents: map<int, int>, x: int, p: int)
    requires Acyclic(parents) && x != p && !Above(parents, x, p)
    ensures Acyclic(parents[x := p])
  {
    var linked := parents[x := p];
    forall y ensures !Above(linked, y, y) {
      LoopWasThere(parents, x, p, y);
    }
  }

  lemma NeverBack(parents: map<int, int>, x: int, p: int, n: nat)
    requires x != p && !Above(parents, x, p) && n >= 1
    ensures Up(parents[x := p], x, n) != Some(x)
  {
    var linked := parents[x := p];
    if Up(linked, x, n) == Some(x) {
      var m: nat := n - 1;
      assert Up(linked, x, 1) == Some(p) by { assert Up(linked, x, 0) == Some(x); }
      UpAdds(linked, x, 1, m);
      FirstReturn(parents, x, p, m);
    }
  }

  /** From `p` the new link is never reached, so the walk is the old one - which never met `x`. */
  lemma {:induction false} FirstReturn(parents: map<int, int>, x: int, p: int, m: nat)
    requires x != p && !Above(parents, x, p)
    ensures Up(parents[x := p], p, m) == Up(parents, p, m) && Up(parents, p, m) != Some(x)
  {
    if m > 0 {
      FirstReturn(parents, x, p, m - 1);
      assert Up(parents, p, m) == Some(x) ==> Above(parents, x, p);
    }
  }

  // --- Changes one at a time ------------------------------------------------------------

  datatype Change =
    | Create(id: int, server: string, kind: int, under: Option<int>)
    | Reparent(id: int, to: Option<int>)
    | Delete(id: int)

  /** A collection has no parent: the one a create names for it is dropped. */
  function CreatedParent(kind: int, under: Option<int>): Option<int> {
    if kind == COLLECTION then None else under
  }

  ghost predicate Accepted(rows: map<int, Channel>, c: Change) {
    match c
    case Create(id, server, kind, under) =>
      id !in rows && (CreatedParent(kind, under).Some? ==> CollectionHere(rows, under.value, server))
    case Reparent(id, to) =>
      && id in rows && rows[id].server.Some?
      && (to.Some? && to != rows[id].parent ==>
            && to.value != id && CollectionHere(rows, to.value, rows[id].server.value)
            && !Above(ServerParents(rows, rows[id].server.value), id, to.value))
    case Delete(id) => id in rows
  }

  /** `x` is `id` or somewhere under it. */
  ghost predicate Beneath(rows: map<int, Channel>, x: int, id: int) {
    exists n: nat :: Up(Parents(rows), x, n) == Some(id)
  }

  ghost function Cascade(rows: map<int, Channel>, id: int): set<int> {
    set x | x in rows && Beneath(rows, x, id)
  }

  ghost function Changed(rows: map<int, Channel>, c: Change): map<int, Channel>
    requires Accepted(rows, c)
  {
    match c
    case Create(id, server, kind, under) => rows[id := Channel(Some(server), kind, CreatedParent(kind, under))]
    case Reparent(id, to) => rows[id := rows[id].(parent := to)]
    case Delete(id) => rows - Cascade(rows, id)
  }

  lemma CreateKeepsForest(rows: map<int, Channel>, id: int, server: string, kind: int, under: Option<int>)
    requires Forest(rows) && Accepted(rows, Create(id, server, kind, under))
    ensures Forest(Changed(rows, Create(id, server, kind, under)))
  {
    var next := Changed(rows, Create(id, server, kind, under));
    var p := CreatedParent(kind, under);
    if p.Some? {
      forall n: nat ensures Up(Parents(rows), p.value, n) != Some(id) {
        OneServersWalk(rows, server, p.value, n);
      }
      NoNewLoop(Parents(rows), id, p.value);
      assert Parents(next) == Parents(rows)[id := p.value];
    } else {
      assert Parents(next) == Parents(rows);
    }
  }

  lemma ReparentKeepsForest(rows: map<int, Channel>, id: int, to: Option<int>)
    requires Forest(rows) && Accepted(rows, Reparent(id, to))
    ensures Forest(Changed(rows, Reparent(id, to)))
  {
    var next := Changed(rows, Reparent(id, to));
    if to == rows[id].parent {
      assert next == rows;
    } else if to.Some? {
      forall n: nat | n >= 1 ensures Up(Parents(rows), to.value, n) != Some(id) {
        OneServersWalk(rows, rows[id].server.value, to.value, n);
      }
      NoNewLoop(Parents(rows), id, to.value);
      assert Parents(next) == Parents(rows)[id := to.value];
    } else {
      FewerLinksStayAcyclic(Parents(next), Parents(rows));
    }
  }

  lemma DeleteKeepsForest(rows: map<int, Channel>, id: int)
    requires Forest(rows) && id in rows
    ensures Forest(rows - Cascade(rows, id))
  {
    var next := rows - Cascade(rows, id);
    forall x | x in next && next[x].parent.Some? ensures next[x].parent.value in next {
      if Beneath(rows, next[x].parent.value, id) {
        ChildOfBeneath(rows, x, id);
      }
    }
    FewerLinksStayAcyclic(Parents(next), Parents(rows));
  }

  lemma ChildOfBeneath(rows: map<int, Channel>, x: int, id: int)
    requires x in rows && rows[x].parent.Some? && Beneath(rows, rows[x].parent.value, id)
    ensures Beneath(rows, x, id)
  {
    var n: nat :| Up(Parents(rows), rows[x].parent.value, n) == Some(id);
    assert Up(Parents(rows), x, 1) == rows[x].parent by { assert Up(Parents(rows), x, 0) == Some(x); }
    UpAdds(Parents(rows), x, 1, n);
    assert Up(Parents(rows), x, 1 + n) == Some(id);
  }

  ghost predicate AllAccepted(rows: map<int, Channel>, changes: seq<Change>)
    decreases |changes|
  {
    changes != [] ==> Accepted(rows, changes[0]) && AllAccepted(Changed(rows, changes[0]), changes[1..])
  }

  ghost function AfterChanges(rows: map<int, Channel>, changes: seq<Change>): map<int, Channel>
    requires AllAccepted(rows, changes)
    decreases |changes|
  {
    if changes == [] then rows else AfterChanges(Changed(rows, changes[0]), changes[1..])
  }

  /** Creates, moves and deletes, each taken whole, never leave anything but a forest of same-server collections. */
  lemma {:induction false} ForestAlways(rows: map<int, Channel>, changes: seq<Change>)
    requires Forest(rows) && AllAccepted(rows, changes)
    ensures Forest(AfterChanges(rows, changes))
    decreases |changes|
  {
    if changes != [] {
      match changes[0] {
        case Create(id, server, kind, under) => CreateKeepsForest(rows, id, server, kind, under);
        case Reparent(id, to) => ReparentKeepsForest(rows, id, to);
        case Delete(id) => DeleteKeepsForest(rows, id);
      }
      ForestAlways(Changed(rows, changes[0]), changes[1..]);
    }
  }

  // --- What a delete takes ---------------------------------------------------------------

  /** One parent step first, then the rest. */
  lemma UpFirst(parents: map<int, int>, x: int, n: nat)
    requires n >= 1 && x in parents
    ensures Up(parents, x, n) == Up(parents, parents[x], n - 1)
  {
    assert Up(parents, x, 0) == Some(x) && Up(parents, x, 1) == Some(parents[x]);
    UpAdds(parents, x, 1, n - 1);
  }

  /** Closed under the foreign key: a row whose parent goes, goes. */
  predicate TakesChildren(rows: map<int, Channel>, gone: set<int>) {
    forall x :: x in rows && rows[x].parent.Some? && rows[x].parent.value in gone ==> x in gone
  }

  lemma {:induction false} OutsideStops(rows: map<int, Channel>, x: int, n: nat)
    requires x !in rows
    ensures n > 0 ==> Up(Parents(rows), x, n).None?
  {
    if n > 1 {
      OutsideStops(rows, x, n - 1);
    } else {
      assert Up(Parents(rows), x, 0) == Some(x);
    }
  }

  lemma {:induction false} BeneathGoes(rows: map<int, Channel>, gone: set<int>, x: int, id: int, n: nat)
    requires id in gone && TakesChildren(rows, gone) && x in rows && Up(Parents(rows), x, n) == Some(id)
    ensures x in gone
    decreases n
  {
    if n > 0 {
      UpPrefix(Parents(rows), x, 1, n);
      assert Up(Parents(rows), x, 0) == Some(x);
      UpFirst(Parents(rows), x, n);
      var parent := rows[x].parent.value;
      if parent in rows {
        BeneathGoes(rows, gone, parent, id, n - 1);
      } else {
        OutsideStops(rows, parent, n - 1);
        assert Up(Parents(rows), parent, 0) == Some(parent);
      }
    }
  }

  /** The recursive query, round by round: each round joins the rows the last one added. */
  method Doomed(rows: map<int, Channel>, id: int) returns (doomed: set<int>, rounds: nat)
    requires id in rows
    ensures doomed == Cascade(rows, id) && id in doomed && doomed <= rows.Keys
    ensures rounds <= |doomed|
  {
    doomed := {id};
    rounds := 0;
    var work := {id};
    assert Up(Parents(rows), id, 0) == Some(id);
    while work != {}
      invariant id in doomed && work <= doomed <= rows.Keys
      invariant forall x :: x in doomed ==> Beneath(rows, x, id)
      invariant forall x :: x in rows && rows[x].parent.Some? && rows[x].parent.value in doomed - work ==> x in doomed
      invariant rounds + (if work == {} then 0 else 1) <= |doomed|
      decreases rows.Keys - doomed, if work == {} then 0 else 1
    {
      var joined := set x | x in rows && rows[x].parent.Some? && rows[x].parent.value in work;
      forall x | x in joined ensures Beneath(rows, x, id) {
        ChildOfBeneath(rows, x, id);
      }
      var added := joined - doomed;
      GrowsByOne(doomed, added);
      assert added == {} ==> doomed + added == doomed;
      assert added != {} ==> rows.Keys - (doomed + added) < rows.Keys - doomed;
      doomed := doomed + added;
      work := added;
      rounds := rounds + 1;
    }
    forall x | x in rows && Beneath(rows, x, id) ensures x in doomed {
      var n: nat :| Up(Parents(rows), x, n) == Some(id);
      BeneathGoes(rows, doomed, x, id, n);
    }
  }

  lemma GrowsByOne(s: set<int>, added: set<int>)
    requires s !! added
    ensures added != {} ==> |s + added| >= |s| + 1
  {
    if added != {} {
      assert |added| > 0;
    }
    assert |s + added| == |s| + |added|;
  }

  /** The set is what the foreign key takes: it holds the row, is closed, and is the smallest such set. */
  lemma CascadeIsTheForeignKeys(rows: map<int, Channel>, id: int, gone: set<int>)
    requires id in rows
    ensures id in Cascade(rows, id) && TakesChildren(rows, Cascade(rows, id))
    ensures id in gone && TakesChildren(rows, gone) ==> Cascade(rows, id) <= gone
  {
    assert Up(Parents(rows), id, 0) == Some(id);
    forall x | x in rows && rows[x].parent.Some? && Beneath(rows, rows[x].parent.value, id)
      ensures Beneath(rows, x, id)
    {
      ChildOfBeneath(rows, x, id);
    }
    if id in gone && TakesChildren(rows, gone) {
      forall x | x in Cascade(rows, id) ensures x in gone {
        var n: nat :| Up(Parents(rows), x, n) == Some(id);
        BeneathGoes(rows, gone, x, id, n);
      }
    }
  }

  lemma CascadeWithin(rows: map<int, Channel>, a: int, x: int, n: nat)
    requires a in rows && x in rows && Up(Parents(rows), a, n) == Some(x)
    ensures Cascade(rows, a) <= Cascade(rows, x)
  {
    forall y | y in Cascade(rows, a) ensures y in Cascade(rows, x) {
      var k: nat :| Up(Parents(rows), y, k) == Some(a);
      UpAdds(Parents(rows), y, k, n);
    }
  }

  /** A loop's rows, however many, are beneath each other: deleting any of them takes the same rows. */
  lemma LoopGoesTogether(rows: map<int, Channel>, a: int, x: int, n: nat, m: nat)
    requires a in rows && x in rows
    requires Up(Parents(rows), a, n) == Some(x) && Up(Parents(rows), x, m) == Some(a)
    ensures Cascade(rows, a) == Cascade(rows, x) && a in Cascade(rows, x)
  {
    CascadeWithin(rows, a, x, n);
    CascadeWithin(rows, x, a, m);
  }

  // --- The handlers over the table ---------------------------------------------------------

  datatype Status = Done | NotFound | Forbidden | BadRequest | Conflict | Failed

  /** Whether clips are on in a server, and the one channel they are posted to. */
  datatype ClipPolicy = ClipPolicy(enabled: bool, pinned: Option<int>)

  /**
   A pin that went is set to null by its own foreign key; in the server the channel
   was deleted from, clips go off with it.
   */
  function Unpinned(clips: map<string, ClipPolicy>, server: Option<string>, gone: set<int>): map<string, ClipPolicy> {
    map s | s in clips ::
      if clips[s].pinned.Some? && clips[s].pinned.value in gone
      then ClipPolicy(clips[s].enabled && server != Some(s), None) else clips[s]
  }

  /** The id column's width. */
  predicate Stored(rows: map<int, Channel>) {
    forall id :: id in rows ==> InInt4(id)
  }

  class ChannelTable {
    var rows: map<int, Channel>
    var clips: map<string, ClipPolicy>

    method ParentWouldLoop(server: string, channel: int, parent: int, readFails: bool) returns (loops: bool)
      requires channel != parent
      ensures loops <==> readFails || Above(ServerParents(rows, server), channel, parent)
    {
      if readFails {
        return true;
      }
      var chain := AncestorChain(ServerParents(rows, server), parent);
      loops := channel in chain;
    }

    /** `newId` is the serial the insert draws; `under` and `category` come from the body. */
    method CreateChannel(server: string, mayManage: bool, kind: int, under: Option<int>, categoryHere: bool,
        readFails: bool, newId: int)
      returns (status: Status)
      requires newId !in rows
      modifies this`rows
      ensures status == Done <==>
                (mayManage && categoryHere
                 && (CreatedParent(kind, under).Some? ==> !readFails && CollectionHere(old(rows), under.value, server)))
      ensures status == Done ==> Accepted(old(rows), Create(newId, server, kind, under))
                                 && rows == Changed(old(rows), Create(newId, server, kind, under))
      ensures status != Done ==> rows == old(rows)
      ensures Forest(old(rows)) ==> Forest(rows)
    {
      if !mayManage {
        return Forbidden;
      }
      var parent := if kind == COLLECTION then None else under;
      if parent.Some? {
        if readFails || !CollectionHere(rows, parent.value, server) {
          return BadRequest;
        }
      }
      if !categoryHere {
        return BadRequest;
      }
      if Forest(rows) {
        CreateKeepsForest(rows, newId, server, kind, under);
      }
      rows := rows[newId := Channel(Some(server), kind, parent)];
      status := Done;
    }

    /**
     `to`: None when the request names no parent, Some(None) to take the channel out
     of its collection. The row is read through the column's width and written by
     the id as given.
     */
    method UpdateParent(channel: int, mayManage: bool, to: Option<Option<int>>, readFails: bool)
        returns (status: Status)
      requires Stored(rows)
      modifies this`rows
      ensures status != Done ==> rows == old(rows)
      ensures status == Done && (to.None? || channel !in old(rows)) ==> rows == old(rows)
      ensures status == Done && to.Some? && channel in old(rows) ==>
                && (to.value == old(rows)[channel].parent || !readFails || to.value.None?)
                && Accepted(old(rows), Reparent(channel, to.value))
                && rows == Changed(old(rows), Reparent(channel, to.value))
      ensures mayManage && channel in old(rows) && old(rows)[channel].server.Some? && !readFails ==>
                (status == BadRequest <==> to.Some? && !Accepted(old(rows), Reparent(channel, to.value)))
      ensures Forest(old(rows)) ==> Forest(rows)
    {
      var row := Wrap32(channel);
      if row !in rows || rows[row].server.None? {
        return NotFound;
      }
      var server := rows[row].server.value;
      if !mayManage {
        return Forbidden;
      }
      var before := if readFails then None else Some(rows[row].parent);
      if to.Some? && to.value.Some? {
        var parent := to.value.value;
        var same := before == Some(Some(parent));
        if !same {
          if parent == channel || readFails || !CollectionHere(rows, parent, server) {
            return BadRequest;
          }
          var loops := ParentWouldLoop(server, channel, parent, readFails);
          if loops {
            return BadRequest;
          }
        }
      }
      if to.Some? && channel in rows {
        if Forest(rows) {
          ReparentKeepsForest(rows, channel, to.value);
        }
        rows := rows[channel := rows[channel].(parent := to.value)];
      }
      status := Done;
    }

    /** `views`: the resolver's answer for what goes along; None when it failed. */
    method DeleteChannel(channel: int, mayManage: bool, views: Option<map<int, bool>>) returns (status: Status)
      requires Stored(rows)
      modifies this
      ensures status != Done ==> rows == old(rows) && clips == old(clips)
      ensures status == Done ==>
                && Wrap32(channel) in old(rows)
                && rows == old(rows) - Cascade(old(rows), Wrap32(channel))
                && (forall x :: x in old(rows) && x !in rows && x != Wrap32(channel) ==>
                      views.Some? && x in views.value && views.value[x])
      ensures mayManage && views.Some? && channel in old(rows) && old(rows)[channel].server.Some? ==>
                (status == Conflict <==> exists x :: x in Cascade(old(rows), channel) && x != channel
                                                  && (x !in views.value || !views.value[x]))
      ensures status == Done ==>
                clips == Unpinned(old(clips), old(rows)[Wrap32(channel)].server, old(rows).Keys - rows.Keys)
      ensures Forest(old(rows)) ==> Forest(rows)
    {
      hide Cascade, Forest, Beneath;
      var row := Wrap32(channel);
      if row !in rows || rows[row].server.None? {
        return NotFound;
      }
      var server := rows[row].server.value;
      if !mayManage {
        return Forbidden;
      }
      var doomed, rounds := Doomed(rows, row);
      var under := set x | x in doomed && x != channel;
      if views.None? {
        return Failed;
      }
      if !(forall x :: x in under ==> x in views.value && views.value[x]) {
        return Conflict;
      }
      if Forest(rows) {
        DeleteKeepsForest(rows, row);
      }
      Remove(server, doomed);
      assert old(rows).Keys - rows.Keys == doomed;
      status := Done;
    }

    /** The clips switch first, then the rows, whose pins are set to null by their own foreign key. */
    method Remove(server: string, doomed: set<int>)
      modifies this
      ensures rows == old(rows) - doomed && clips == Unpinned(old(clips), Some(server), doomed)
    {
      if server in clips && clips[server].pinned.Some? && clips[server].pinned.value in doomed {
        clips := clips[server := clips[server].(enabled := false)];
      }
      rows := rows - doomed;
      clips := map s | s in clips :: if clips[s].pinned.Some? && clips[s].pinned.value in doomed
                                     then clips[s].(pinned := None) else clips[s];
    }
  }
}
