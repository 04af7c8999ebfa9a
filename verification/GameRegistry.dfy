/**
 The registry of open tables: one per call. A table is closed in two halves - marked
 under its own lock, then taken out of the registry under the registry's - and any
 holder of a table may try to close it at any moment.
 */
module GameRegistry {
  import opened GameEngine
  import opened Wrappers

  const MAX_OPEN_TABLES: nat := 500
  /** 2^53 - 1: ids a JavaScript client holds exactly. */
  const MAX_TABLE_ID: nat := 9_007_199_254_740_991

  /** `cell`: which of the tables ever opened this is, counting from 0. */
  datatype OpenTable = OpenTable(id: nat, kind: Kind, cell: nat)

  datatype OpenError = RoomHasTable(open: nat, kind: Kind) | TooManyTables(cap: nat)

  function NextId(id: nat): nat { if id >= MAX_TABLE_ID then 1 else id + 1 }

  function Clamp(id: nat): nat { if id < 1 then 1 else if id > MAX_TABLE_ID then MAX_TABLE_ID else id }

  /** What a call and a table id resolve to. */
  function Lookup(tables: map<string, OpenTable>, room: string, id: nat): Option<OpenTable> {
    if room in tables && tables[room].id == id then Some(tables[room]) else None
  }

  // --- The registry, as the server keeps it ---------------------------------------------------

  class Registry {
    var tables: map<string, OpenTable>
    var serverOf: map<string, string>
    var nextId: nat
    const maxOpen: nat

    constructor (cap: nat, firstId: nat)
      ensures tables == map[] && serverOf == map[] && nextId == Clamp(firstId) && maxOpen == cap
    {
      tables, serverOf, nextId, maxOpen := map[], map[], Clamp(firstId), cap;
    }

    method OpenIn(room: string, server: string, kind: Kind, cell: nat) returns (r: Result<nat, OpenError>)
      modifies this`tables, this`serverOf, this`nextId
      ensures r.Success? <==> room !in old(tables) && |old(tables)| < maxOpen
      ensures r.Success? ==>
                && r.value == old(nextId) && nextId == NextId(old(nextId))
                && tables == old(tables)[room := OpenTable(r.value, kind, cell)]
                    && serverOf == old(serverOf)[room := server]
      ensures r.Failure? ==> tables == old(tables) && serverOf == old(serverOf) && nextId == old(nextId)
      ensures room in old(tables) ==> r == Failure(RoomHasTable(old(tables)[room].id, old(tables)[room].kind))
    {
      if room in tables {
        return Failure(RoomHasTable(tables[room].id, tables[room].kind));
      }
      if |tables| >= maxOpen {
        return Failure(TooManyTables(maxOpen));
      }
      var id := nextId;
      nextId := if nextId >= MAX_TABLE_ID then 1 else nextId + 1;
      tables := tables[room := OpenTable(id, kind, cell)];
      serverOf := serverOf[room := server];
      r := Success(id);
    }

    /** What a frame naming a table resolves through. */
    method LookupId(room: string, id: nat) returns (t: Option<OpenTable>)
      ensures t == Lookup(tables, room, id)
    {
      t := if room in tables && tables[room].id == id then Some(tables[room]) else None;
    }

    /** The second half of every close. */
    method TakeOut(room: string, id: nat) returns (taken: bool)
      modifies this`tables, this`serverOf
      ensures taken <==> room in old(tables) && old(tables)[room].id == id
      ensures tables == (if taken then old(tables) - {room} else old(tables))
      ensures serverOf == (if taken then old(serverOf) - {room} else old(serverOf))
    {
      taken := room in tables && tables[room].id == id;
      if taken {
        tables := tables - {room};
        serverOf := serverOf - {room};
      }
    }

    /** The tables of one server, read under the registry's lock; each is closed after it is released. */
    method TablesOf(server: string) returns (cells: set<nat>)
      ensures cells == set room | room in serverOf && serverOf[room] == server && room in tables :: tables[room].cell
    {
      cells := {};
      var left := serverOf.Keys;
      while left != {}
        invariant left <= serverOf.Keys
        invariant cells == set room | room in serverOf.Keys - left && serverOf[room] == server && room in tables ::
                  tables[room].cell
        decreases |left|
      {
        SomeRoom(left);
        var room :| room in left;
        ghost var before := cells;
        if serverOf[room] == server && room in tables {
          cells := cells + {tables[room].cell};
        }
        ghost var rest := left - {room};
        assert serverOf.Keys - rest == (serverOf.Keys - left) + {room};
        left := left - {room};
      }
    }

    lemma SomeRoom(rooms: set<string>)
      ensures rooms == {} || exists room :: room in rooms
    {
      if forall room :: room !in rooms {
        assert rooms == {};
      }
    }
  }

  // --- Every interleaving ------------------------------------------------------------------

  /** A table once opened: its call, its id, and whether it was marked closed and taken out. */
  datatype Cell = Cell(room: string, id: nat, closed: bool, finished: bool)

  /** `closers`: which table each successful mark closed, in order. */
  datatype World = World(
    tables: map<string, OpenTable>, serverOf: map<string, string>, nextId: nat, cells: seq<Cell>, closers: seq<nat>)

  datatype Step =
    | Open(room: string, server: string, kind: Kind)
    | Mark(cell: nat)
    | Finish(cell: nat)

  /** Anyone may try to mark any table ever opened; only its closer finishes it, once. */
  predicate Enabled(w: World, s: Step) {
    match s
    case Open(_, _, _) => true
    case Mark(cell) => cell < |w.cells|
    case Finish(cell) => cell < |w.cells| && w.cells[cell].closed && !w.cells[cell].finished
  }

  predicate Opens(w: World, room: string, cap: nat) { room !in w.tables && |w.tables| < cap }

  function Next(w: World, s: Step, cap: nat): World
    requires Enabled(w, s)
  {
    match s
    case Open(room, server, kind) =>
      if !Opens(w, room, cap) then w
      else w.(tables := w.tables[room := OpenTable(w.nextId, kind, |w.cells|)], serverOf := w.serverOf[room := server],
              nextId := NextId(w.nextId), cells := w.cells + [Cell(room, w.nextId, false, false)])
    case Mark(cell) =>
      if w.cells[cell].closed then w
      else w.(cells := w.cells[cell := w.cells[cell].(closed := true)], closers := w.closers + [cell])
    case Finish(cell) =>
      var c := w.cells[cell];
      var v := w.(cells := w.cells[cell := c.(finished := true)]);
      if c.room in w.tables && w.tables[c.room].id == c.id
      then v.(tables := w.tables - {c.room}, serverOf := w.serverOf - {c.room})
      else v
  }

  /** The registry holds exactly the tables not yet taken out, each under its own call. */
  ghost predicate Mirrors(w: World) {
    && w.serverOf.Keys == w.tables.Keys
    && (forall room :: room in w.tables ==>
          var t := w.tables[room];
          t.cell < |w.cells| && !w.cells[t.cell].finished && w.cells[t.cell].room == room && w.cells[t.cell].id == t.id)
    && (forall i :: 0 <= i < |w.cells| && !w.cells[i].finished ==>
          w.cells[i].room in w.tables && w.tables[w.cells[i].room].cell == i)
  }

  /** Each table marked closed was closed by one step; only such tables are finished. */
  ghost predicate OneCloserEach(w: World) {
    && (forall i :: 0 <= i < |w.cells| ==> (w.cells[i].closed <==> i in w.closers))
    && (forall i :: 0 <= i < |w.cells| && w.cells[i].finished ==> w.cells[i].closed)
    && (forall k, l :: 0 <= k < l < |w.closers| ==> w.closers[k] != w.closers[l])
    && (forall k :: 0 <= k < |w.closers| ==> w.closers[k] < |w.cells|)
  }

  lemma StepMirrors(w: World, s: Step, cap: nat)
    requires Mirrors(w) && Enabled(w, s)
    ensures Mirrors(Next(w, s, cap))
  {
    match s
    case Open(room, server, kind) => OpenMirrors(w, s, cap);
    case Mark(cell) => MarkMirrors(w, s, cap);
    case Finish(cell) => FinishMirrors(w, s, cap);
  }

  lemma OpenMirrors(w: World, s: Step, cap: nat)
    requires Mirrors(w) && s.Open?
    ensures Mirrors(Next(w, s, cap))
  {
    var v := Next(w, s, cap);
    if v != w {
      forall i | 0 <= i < |v.cells| && !v.cells[i].finished
        ensures v.cells[i].room in v.tables && v.tables[v.cells[i].room].cell == i
      {
        if i < |w.cells| {
          assert w.cells[i].room in w.tables;
        }
      }
    }
  }

  lemma MarkMirrors(w: World, s: Step, cap: nat)
    requires Mirrors(w) && s.Mark? && Enabled(w, s)
    ensures Mirrors(Next(w, s, cap))
  {
    var v := Next(w, s, cap);
    forall i | 0 <= i < |v.cells|
      ensures v.cells[i].room == w.cells[i].room && v.cells[i].id == w.cells[i].id
              && v.cells[i].finished == w.cells[i].finished
    {
    }
  }

  lemma FinishMirrors(w: World, s: Step, cap: nat)
    requires Mirrors(w) && s.Finish? && Enabled(w, s)
    ensures Mirrors(Next(w, s, cap))
  {
    var v, c := Next(w, s, cap), w.cells[s.cell];
    assert c.room in w.tables && w.tables[c.room].cell == s.cell;
    forall i | 0 <= i < |v.cells| && !v.cells[i].finished
      ensures v.cells[i].room in v.tables && v.tables[v.cells[i].room].cell == i
    {
      assert v.cells[i] == w.cells[i];
      assert w.tables[w.cells[i].room].cell == i;
    }
  }

  lemma StepOneCloser(w: World, s: Step, cap: nat)
    requires OneCloserEach(w) && Enabled(w, s)
    ensures OneCloserEach(Next(w, s, cap))
  {
  }

  ghost predicate Runs(w: World, steps: seq<Step>, cap: nat)
    decreases |steps|
  {
    steps == [] || (Enabled(w, steps[0]) && Runs(Next(w, steps[0], cap), steps[1..], cap))
  }

  ghost function After(w: World, steps: seq<Step>, cap: nat): World
    requires Runs(w, steps, cap)
    decreases |steps|
  {
    if steps == [] then w else After(Next(w, steps[0], cap), steps[1..], cap)
  }

  function Start(firstId: nat): World { World(map[], map[], Clamp(firstId), [], []) }

  lemma {:induction false} RunMirrors(w: World, steps: seq<Step>, cap: nat)
    requires Mirrors(w) && OneCloserEach(w) && Runs(w, steps, cap)
    ensures Mirrors(After(w, steps, cap)) && OneCloserEach(After(w, steps, cap))
    decreases |steps|
  {
    hide Mirrors, OneCloserEach;
    if steps != [] {
      StepMirrors(w, steps[0], cap);
      StepOneCloser(w, steps[0], cap);
      RunMirrors(Next(w, steps[0], cap), steps[1..], cap);
    }
  }

  /**
   However opens, marks and finishes interleave: the two maps have the same keys, a
   call has at most one table that is not closed, and every table was closed by at
   most one step.
   */
  lemma OneTableOneCloser(firstId: nat, steps: seq<Step>, cap: nat)
    requires Runs(Start(firstId), steps, cap)
    ensures var w := After(Start(firstId), steps, cap);
            && w.serverOf.Keys == w.tables.Keys
            && (forall i, j :: 0 <= i < j < |w.cells| && w.cells[i].room == w.cells[j].room ==>
                  w.cells[i].closed || w.cells[j].closed)
            && (forall k, l :: 0 <= k < l < |w.closers| ==> w.closers[k] != w.closers[l])
            && (forall i :: 0 <= i < |w.cells| ==> (w.cells[i].closed <==> i in w.closers))
  {
    assert Mirrors(Start(firstId)) && OneCloserEach(Start(firstId));
    RunMirrors(Start(firstId), steps, cap);
    var w := After(Start(firstId), steps, cap);
    forall i, j | 0 <= i < j < |w.cells| && w.cells[i].room == w.cells[j].room
      ensures w.cells[i].closed || w.cells[j].closed
    {
    }
  }

  /**
   A close takes out its own table and no other, however late it finishes: until then nobody else's
   can open there.
   */
  lemma FinishTakesItsOwn(firstId: nat, steps: seq<Step>, cap: nat, cell: nat)
    requires Runs(Start(firstId), steps, cap) && Enabled(After(Start(firstId), steps, cap), Finish(cell))
    ensures var w := After(Start(firstId), steps, cap);
            && w.cells[cell].room in w.tables && w.tables[w.cells[cell].room].cell == cell
            && Next(w, Finish(cell), cap).tables == w.tables - {w.cells[cell].room}
            && forall i :: 0 <= i < |w.cells| && i != cell && !w.cells[i].finished ==>
                 && w.cells[i].room in Next(w, Finish(cell), cap).tables
                 && Next(w, Finish(cell), cap).tables[w.cells[i].room].cell == i
  {
    assert Mirrors(Start(firstId)) && OneCloserEach(Start(firstId));
    RunMirrors(Start(firstId), steps, cap);
    var w := After(Start(firstId), steps, cap);
    StepMirrors(w, Finish(cell), cap);
  }

  // --- Ids -----------------------------------------------------------------------------------

  /** The id of the `n`-th table opened. */
  function IdOf(firstId: nat, n: nat): (id: nat)
    ensures 1 <= id <= MAX_TABLE_ID
  {
    if n == 0 then Clamp(firstId) else NextId(IdOf(firstId, n - 1))
  }

  lemma {:induction false} IdAhead(firstId: nat, n: nat, d: nat)
    ensures var id := IdOf(firstId, n) + d;
            d < MAX_TABLE_ID ==> IdOf(firstId, n + d) == if id <= MAX_TABLE_ID then id else id - MAX_TABLE_ID
    decreases d
  {
    if 0 < d < MAX_TABLE_ID {
      IdAhead(firstId, n, d - 1);
      assert IdOf(firstId, n + d) == NextId(IdOf(firstId, n + d - 1));
    }
  }

  /** An id comes round again after 2^53 - 1 opens, */
  lemma IdComesRound(firstId: nat, n: nat)
    ensures IdOf(firstId, n + MAX_TABLE_ID) == IdOf(firstId, n)
  {
    IdAhead(firstId, n, MAX_TABLE_ID - 1);
    assert IdOf(firstId, n + MAX_TABLE_ID) == NextId(IdOf(firstId, n + (MAX_TABLE_ID - 1)));
  }

  /** and not before. */
  lemma IdsDiffer(firstId: nat, n: nat, d: nat)
    requires 0 < d < MAX_TABLE_ID
    ensures IdOf(firstId, n + d) != IdOf(firstId, n)
  {
    IdAhead(firstId, n, d);
  }

  /** Every table has the id of its turn, and the next one to open the next id. */
  ghost predicate Numbered(w: World, firstId: nat) {
    && w.nextId == IdOf(firstId, |w.cells|)
    && forall i :: 0 <= i < |w.cells| ==> w.cells[i].id == IdOf(firstId, i)
  }

  lemma {:induction false} RunNumbered(firstId: nat, w: World, steps: seq<Step>, cap: nat)
    requires Numbered(w, firstId) && Runs(w, steps, cap)
    ensures Numbered(After(w, steps, cap), firstId)
    decreases |steps|
  {
    if steps != [] {
      RunNumbered(firstId, Next(w, steps[0], cap), steps[1..], cap);
    }
  }

  /**
   A frame that names a table by its id is answered by a later table of the same call only 2^53 - 1
   or more opens later.
   */
  lemma StaleIdsMiss(firstId: nat, steps: seq<Step>, cap: nat, stale: nat, room: string)
    requires Runs(Start(firstId), steps, cap)
    requires var w := After(Start(firstId), steps, cap);
             stale < |w.cells| && room in w.tables && w.tables[room].id == w.cells[stale].id
    ensures var w := After(Start(firstId), steps, cap);
            w.tables[room].cell == stale || w.tables[room].cell >= stale + MAX_TABLE_ID
                || stale >= w.tables[room].cell + MAX_TABLE_ID
  {
    hide After, Runs;
    assert Mirrors(Start(firstId)) && OneCloserEach(Start(firstId)) && Numbered(Start(firstId), firstId);
    RunMirrors(Start(firstId), steps, cap);
    RunNumbered(firstId, Start(firstId), steps, cap);
    var w := After(Start(firstId), steps, cap);
    var cell := w.tables[room].cell;
    assert IdOf(firstId, cell) == IdOf(firstId, stale);
    hide IdOf, Mirrors, OneCloserEach, Numbered;
    if stale < cell < stale + MAX_TABLE_ID {
      IdsDiffer(firstId, stale, cell - stale);
    }
    if cell < stale < cell + MAX_TABLE_ID {
      IdsDiffer(firstId, cell, stale - cell);
    }
  }

  /**
   What a frame naming a table finds: the one table of that call and id that is not taken
   out - so None for a table once it is taken out, until its id comes round.
   */
  lemma LookupFindsTheOpenTable(firstId: nat, steps: seq<Step>, cap: nat, room: string, id: nat, cell: nat)
    requires Runs(Start(firstId), steps, cap) && cell < |After(Start(firstId), steps, cap).cells|
    ensures var w := After(Start(firstId), steps, cap);
            var found, c := Lookup(w.tables, room, id), w.cells[cell];
            && (found.Some? && found.value.cell == cell <==> c.room == room && c.id == id && !c.finished)
            && (found.Some? ==> found.value.cell < |w.cells| && found.value.id == id)
            && (c.finished && c.room == room && c.id == id && found.Some? ==>
                  found.value.cell >= cell + MAX_TABLE_ID || cell >= found.value.cell + MAX_TABLE_ID)
  {
    assert Mirrors(Start(firstId)) && OneCloserEach(Start(firstId));
    RunMirrors(Start(firstId), steps, cap);
    var w := After(Start(firstId), steps, cap);
    assert w.cells[cell].room == room && !w.cells[cell].finished ==> w.tables[room].cell == cell;
    if room in w.tables && w.tables[room].id == w.cells[cell].id {
      StaleIdsMiss(firstId, steps, cap, cell, room);
    }
  }
}
