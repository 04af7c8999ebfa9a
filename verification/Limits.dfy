/**
 Rate windows, the decline ladder and device challenges: maps whose aged-out
 entries are dropped at moments that have nothing to do with the key asked about.

 A limit is one function on one entry. Forgetting an entry is invisible when a
 stale entry answers as no entry would; that is proved once, for any limit, and
 each limit only has to show it about itself.
 */
module Pruning {
  import opened Wrappers

  /** `step`: entry, request, clock -> new entry, answer. `stale`: an entry a sweep may drop. */
  datatype Limit<!E, !I, O> = Limit(step: (Option<E>, I, int) -> (Option<E>, O), stale: (E, int) -> bool)

  /** One request about one key, or a sweep that drops some keys. */
  datatype Event<K, I> = Ask(key: K, input: I, now: int) | Prune(dropped: set<K>, now: int)

  function Get<K, E>(m: map<K, E>, k: K): Option<E> { if k in m then Some(m[k]) else None }

  function Put<K, E>(m: map<K, E>, k: K, e: Option<E>): map<K, E> {
    if e.Some? then m[k := e.value] else m - {k}
  }

  /** What a full sweep keeps. */
  function Retained<K, E, I, O>(l: Limit<E, I, O>, m: map<K, E>, now: int): map<K, E> {
    map k | k in m && !l.stale(m[k], now) :: m[k]
  }

  /** Nothing there, or nothing a sweep would keep. */
  predicate Negligible<E, I, O>(l: Limit<E, I, O>, e: Option<E>, now: int) {
    e.None? || l.stale(e.value, now)
  }

  predicate Same<E(==), I, O>(l: Limit<E, I, O>, e: Option<E>, f: Option<E>, now: int) {
    e == f || (Negligible(l, e, now) && Negligible(l, f, now))
  }

  /**
   Staleness lasts, and a stale entry is stepped like a missing one. `good` is what every entry
   ever stored satisfies.
   */
  ghost predicate Sound<E(!new), I(!new), O(!new)>(l: Limit<E, I, O>, good: E -> bool) {
    && (forall e: E, now, later :: l.stale(e, now) && now <= later ==> l.stale(e, later))
    && (forall e: E, i, now :: good(e) && l.stale(e, now) ==>
          var (x, o) := l.step(Some(e), i, now);
          var (y, p) := l.step(None, i, now);
          o == p && Same(l, x, y, now))
    && (forall e: Option<E>, i, now :: (e.Some? ==> good(e.value)) && l.step(e, i, now).0.Some? ==>
          good(l.step(e, i, now).0.value))
  }

  function AfterEvent<K, E, I, O>(l: Limit<E, I, O>, m: map<K, E>, e: Event<K, I>): map<K, E> {
    match e
    case Ask(k, i, now) => Put(m, k, l.step(Get(m, k), i, now).0)
    case Prune(dropped, _) => m - dropped
  }

  /** The answers given along a run. */
  function Answers<K, E, I, O>(l: Limit<E, I, O>, m: map<K, E>, events: seq<Event<K, I>>): seq<O>
    decreases |events|
  {
    if events == [] then []
    else (if events[0].Ask? then [l.step(Get(m, events[0].key), events[0].input, events[0].now).1] else [])
         + Answers(l, AfterEvent(l, m, events[0]), events[1..])
  }

  function Requests<K, I>(events: seq<Event<K, I>>): seq<Event<K, I>>
    decreases |events|
  {
    if events == [] then []
    else (if events[0].Ask? then [events[0]] else []) + Requests(events[1..])
  }

  /** The clock never goes back, and a sweep drops stale entries only. */
  ghost predicate Legal<K(!new), E, I, O>(l: Limit<E, I, O>, m: map<K, E>, events: seq<Event<K, I>>, clock: int)
    decreases |events|
  {
    events != [] ==>
      && clock <= events[0].now
      && (events[0].Prune? ==> forall k :: k in events[0].dropped && k in m ==> l.stale(m[k], events[0].now))
      && Legal(l, AfterEvent(l, m, events[0]), events[1..], events[0].now)
  }

  ghost predicate Alike<K(!new), E, I, O>(l: Limit<E, I, O>, m: map<K, E>, n: map<K, E>, good: E -> bool, clock: int) {
    && (forall k :: Same(l, Get(m, k), Get(n, k), clock))
    && (forall k :: (k in m ==> good(m[k])) && (k in n ==> good(n[k])))
  }

  lemma NegligibleSteps<E(!new), I(!new), O(!new)>(l: Limit<E, I, O>, good: E -> bool, e: Option<E>, i: I, now: int)
    requires Sound(l, good) && Negligible(l, e, now) && (e.Some? ==> good(e.value))
    ensures l.step(e, i, now).1 == l.step(None, i, now).1
    ensures Same(l, l.step(e, i, now).0, l.step(None, i, now).0, now)
  {
  }

  lemma StepsAlike<E(!new), I(!new), O(!new)>(
    l: Limit<E, I, O>, good: E -> bool, e: Option<E>, f: Option<E>, i: I, clock: int, now: int)
    requires Sound(l, good) && Same(l, e, f, clock) && clock <= now
    requires (e.Some? ==> good(e.value)) && (f.Some? ==> good(f.value))
    ensures l.step(e, i, now).1 == l.step(f, i, now).1
    ensures Same(l, l.step(e, i, now).0, l.step(f, i, now).0, now)
  {
    if e != f {
      NegligibleSteps(l, good, e, i, now);
      NegligibleSteps(l, good, f, i, now);
    }
  }

  lemma AskAlike<K(!new), E(!new), I(!new), O(!new)>(
    l: Limit<E, I, O>, m: map<K, E>, n: map<K, E>, good: E -> bool, key: K, i: I, clock: int, now: int)
    requires Sound(l, good) && Alike(l, m, n, good, clock) && clock <= now
    ensures l.step(Get(m, key), i, now).1 == l.step(Get(n, key), i, now).1
    ensures Alike(l, Put(m, key, l.step(Get(m, key), i, now).0), Put(n, key, l.step(Get(n, key), i, now).0), good, now)
  {
    var e, f := Get(m, key), Get(n, key);
    var m' := Put(m, key, l.step(e, i, now).0);
    var n' := Put(n, key, l.step(f, i, now).0);
    StepsAlike(l, good, e, f, i, clock, now);
    forall k ensures Same(l, Get(m', k), Get(n', k), now) {
      assert Same(l, Get(m, k), Get(n, k), clock);
    }
  }

  lemma PruneAlike<K(!new), E(!new), I(!new), O(!new)>(
    l: Limit<E, I, O>, m: map<K, E>, n: map<K, E>, good: E -> bool, dropped: set<K>, clock: int, now: int)
    requires Sound(l, good) && Alike(l, m, n, good, clock) && clock <= now
    requires forall k :: k in dropped && k in m ==> l.stale(m[k], now)
    ensures Alike(l, m - dropped, n, good, now)
  {
    forall k ensures Same(l, Get(m - dropped, k), Get(n, k), now) {
      assert Same(l, Get(m, k), Get(n, k), clock);
    }
  }

  /** Whatever is swept and whenever: the answers are those of a map nothing was ever dropped from. */
  lemma {:induction false} PruningIsInvisible<K(!new), E(!new), I(!new), O(!new)>(
    l: Limit<E, I, O>, m: map<K, E>, n: map<K, E>, good: E -> bool, events: seq<Event<K, I>>, clock: int)
    requires Sound(l, good) && Alike(l, m, n, good, clock) && Legal(l, m, events, clock)
    ensures Answers(l, m, events) == Answers(l, n, Requests(events))
    decreases |events|
  {
    if events != [] {
      var rest := events[1..];
      var m' := AfterEvent(l, m, events[0]);
      match events[0]
      case Ask(key, i, now) =>
        AskAlike(l, m, n, good, key, i, clock, now);
        PruningIsInvisible(l, m', AfterEvent(l, n, events[0]), good, rest, now);
        assert Requests(events) == [events[0]] + Requests(rest);
        assert Requests(events)[0] == events[0] && Requests(events)[1..] == Requests(rest);
      case Prune(dropped, now) =>
        PruneAlike(l, m, n, good, dropped, clock, now);
        PruningIsInvisible(l, m', n, good, rest, now);
        assert Requests(events) == Requests(rest);
        assert Answers(l, m, events) == Answers(l, m', rest);
    }
  }
}

/** The limits themselves. Times in milliseconds. */
module Limits {
  import opened Pruning
  import opened Wrappers

  const SECOND: int := 1000

  // --- Clip proposals: five in a window, and a ladder of waits after declines ---------

  const CLIP_RATE_WINDOW: int := 300 * SECOND
  const CLIP_RATE_MAX: nat := 5
  const CLIP_DENIAL_STEPS: seq<int> := [30 * SECOND, 120 * SECOND, 300 * SECOND, 900 * SECOND, 1800 * SECOND]
  const CLIP_DENIAL_DECAY: int := 1800 * SECOND

  datatype Window = Window(start: int, count: nat)

  /** None: allowed. Some: how long to wait. */
  function TakeClip(e: Option<Window>, now: int): (Option<Window>, Option<int>) {
    var w := if e.Some? && now - e.value.start <= CLIP_RATE_WINDOW then e.value else Window(now, 0);
    if w.count >= CLIP_RATE_MAX then (Some(w), Some(CLIP_RATE_WINDOW - (now - w.start)))
    else (Some(Window(w.start, w.count + 1)), None)
  }

  function ClipWindow(): Limit<Window, (), Option<int>> {
    Limit((e, i, now) => TakeClip(e, now), (w: Window, now) => now - w.start > CLIP_RATE_WINDOW)
  }

  datatype Denial = Denial(count: nat, until: int, last: int)

  /** Check: how long the last decline still keeps its proposer waiting. Bump: one more decline. */
  datatype Rung = Check | Bump

  function StepAfter(count: nat): (r: int)
    ensures SECOND <= r <= CLIP_DENIAL_DECAY
  {
    CLIP_DENIAL_STEPS[if count < |CLIP_DENIAL_STEPS| then count else |CLIP_DENIAL_STEPS| - 1]
  }

  function Bumped(e: Option<Denial>, now: int): Denial {
    var count := if e.Some? && now - e.value.last <= CLIP_DENIAL_DECAY then e.value.count else 0;
    Denial(count + 1, now + StepAfter(count), now)
  }

  function Climb(e: Option<Denial>, i: Rung, now: int): (Option<Denial>, Option<int>) {
    match i
    case Check => (e, if e.Some? && now < e.value.until then Some(e.value.until - now) else None)
    case Bump => (Some(Bumped(e, now)), None)
  }

  function DenialLadder(): Limit<Denial, Rung, Option<int>> {
    Limit(Climb, (d: Denial, now) => now - d.last > CLIP_DENIAL_DECAY)
  }

  /** No wait outlives the decay: the longest step is no longer than it. */
  predicate Bounded(d: Denial) { d.until <= d.last + CLIP_DENIAL_DECAY }

  lemma StaleClipWindow(w: Window, now: int)
    requires now - w.start > CLIP_RATE_WINDOW
    ensures TakeClip(Some(w), now) == TakeClip(None, now)
  {
  }

  lemma ClipWindowSound()
    ensures Sound(ClipWindow(), (w: Window) => true)
  {
    var l := ClipWindow();
    hide TakeClip;
    forall w: Window, i: (), now | l.stale(w, now) ensures l.step(Some(w), i, now) == l.step(None, i, now) {
      StaleClipWindow(w, now);
    }
  }

  lemma DenialLadderSound()
    ensures Sound(DenialLadder(), Bounded)
  {
  }

  /** What `check_rate` would have said had nothing ever been swept. */
  lemma ClipSweepsAreInvisible(rates: seq<Event<int, ()>>, denials: seq<Event<Place, Rung>>, clock: int)
    requires Legal(ClipWindow(), map[], rates, clock) && Legal(DenialLadder(), map[], denials, clock)
    ensures Answers(ClipWindow(), map[], rates) == Answers(ClipWindow(), map[], Requests(rates))
    ensures Answers(DenialLadder(), map[], denials) == Answers(DenialLadder(), map[], Requests(denials))
  {
    ClipWindowSound();
    DenialLadderSound();
    PruningIsInvisible(ClipWindow(), map[], map[], (w: Window) => true, rates, clock);
    PruningIsInvisible(DenialLadder(), map[], map[], Bounded, denials, clock);
  }

  /** Who was declined, and in which voice channel. */
  datatype Place = Place(user: int, channel: int)

  class ClipLimits {
    var rate: map<int, Window>
    var denials: map<Place, Denial>

    /** The ladder first, then the window: a wait costs nothing of the window. */
    method CheckRate(user: int, channel: int, now: int) returns (wait: Option<int>)
      requires forall k :: k in rate ==> rate[k].start <= now
      modifies this
      ensures denials == old(denials)
      ensures var held := Climb(Get(old(denials), Place(user, channel)), Check, now).1;
              var (after, full) := TakeClip(Get(old(rate), user), now);
              if held.Some? then wait == held && rate == old(rate)
                  else wait == full && rate == Put(old(rate), user, after)
      ensures wait.Some? ==> wait.value >= 0
    {
      var place := Place(user, channel);
      if place in denials && now < denials[place].until {
        return Some(denials[place].until - now);
      }
      if user !in rate {
        rate := rate[user := Window(now, 0)];
      }
      if now - rate[user].start > CLIP_RATE_WINDOW {
        rate := rate[user := Window(now, 0)];
      }
      if rate[user].count >= CLIP_RATE_MAX {
        return Some(CLIP_RATE_WINDOW - (now - rate[user].start));
      }
      rate := rate[user := rate[user].(count := rate[user].count + 1)];
      wait := None;
    }

    method BumpDenial(user: int, channel: int, now: int)
      modifies this
      ensures rate == old(rate)
      ensures denials == Put(old(denials), Place(user, channel),
              Climb(Get(old(denials), Place(user, channel)), Bump, now).0)
    {
      var place := Place(user, channel);
      var d := if place in denials then denials[place] else Denial(0, now, now);
      if now - d.last > CLIP_DENIAL_DECAY {
        d := d.(count := 0);
      }
      var step := CLIP_DENIAL_STEPS[if d.count < |CLIP_DENIAL_STEPS| - 1 then d.count else |CLIP_DENIAL_STEPS| - 1];
      d := Denial(d.count + 1, now + step, now);
      denials := denials[place := d];
    }

    method Sweep(now: int)
      modifies this
      ensures rate == Retained(ClipWindow(), old(rate), now) && denials == Retained(DenialLadder(), old(denials), now)
    {
      rate := map k | k in rate && now - rate[k].start <= CLIP_RATE_WINDOW :: rate[k];
      denials := map k | k in denials && now - denials[k].last <= CLIP_DENIAL_DECAY :: denials[k];
    }
  }

  // --- Opening card tables, and resyncs ------------------------------------------------

  const CREATE_RATE_WINDOW: int := 300 * SECOND
  const CREATE_RATE_MAX: nat := 5
  const RESYNC_MIN_INTERVAL: int := SECOND
  const RATE_MAP_PRUNE_AT: nat := 4096

  /** Refund: the reserved open did not open anything. */
  datatype Reservation = Take | Refund

  function Reserve(e: Option<Window>, i: Reservation, now: int): (Option<Window>, bool) {
    match i
    case Take =>
      var w := if e.Some? && now - e.value.start <= CREATE_RATE_WINDOW then e.value else Window(now, 0);
      if w.count >= CREATE_RATE_MAX then (Some(w), false) else (Some(Window(w.start, w.count + 1)), true)
    case Refund =>
      (if e.Some? && e.value.count > 0 then Some(Window(e.value.start, e.value.count - 1)) else e, true)
  }

  function CreateWindow(): Limit<Window, Reservation, bool> {
    Limit(Reserve, (w: Window, now) => now - w.start > CREATE_RATE_WINDOW)
  }

  function Resync(e: Option<int>, now: int): (Option<int>, bool) {
    if e.Some? && now - e.value < RESYNC_MIN_INTERVAL then (e, false) else (Some(now), true)
  }

  function ResyncLimit(): Limit<int, (), bool> {
    Limit((e, i, now) => Resync(e, now), (at: int, now) => now - at >= RESYNC_MIN_INTERVAL)
  }

  lemma CreateWindowSound()
    ensures Sound(CreateWindow(), (w: Window) => true)
  {
  }

  lemma ResyncLimitSound()
    ensures Sound(ResyncLimit(), (at: int) => true)
  {
  }

  lemma TableSweepsAreInvisible(opens: seq<Event<int, Reservation>>, resyncs: seq<Event<int, ()>>, clock: int)
    requires Legal(CreateWindow(), map[], opens, clock) && Legal(ResyncLimit(), map[], resyncs, clock)
    ensures Answers(CreateWindow(), map[], opens) == Answers(CreateWindow(), map[], Requests(opens))
    ensures Answers(ResyncLimit(), map[], resyncs) == Answers(ResyncLimit(), map[], Requests(resyncs))
  {
    CreateWindowSound();
    ResyncLimitSound();
    PruningIsInvisible(CreateWindow(), map[], map[], (w: Window) => true, opens, clock);
    PruningIsInvisible(ResyncLimit(), map[], map[], (at: int) => true, resyncs, clock);
  }

  /** A create frame's reservation, and whether a table comes of it; or a reservation given back. */
  datatype Frame = Taken(now: int, opens: bool) | GivenBack(now: int)

  /** One user's entry, and how many reservations of its window are still to be given back. */
  datatype Meter = Meter(entry: Option<Window>, pending: nat)

  function AfterFrame(m: Meter, f: Frame): (Meter, bool) {
    match f
    case Taken(now, opens) =>
      var (e, ok) := Reserve(m.entry, Take, now);
      var pending := if m.entry.Some? && e.value.start == m.entry.value.start then m.pending else 0;
      (Meter(e, if ok && !opens then pending + 1 else pending), ok && opens)
    case GivenBack(now) => (Meter(Reserve(m.entry, Refund, now).0, if m.pending > 0 then m.pending - 1 else 0), false)
  }

  /** The clock never goes back. */
  predicate Forward(frames: seq<Frame>) {
    forall i, j :: 0 <= i < j < |frames| ==> frames[i].now <= frames[j].now
  }

  predicate Between(frames: seq<Frame>, lo: int, hi: int) {
    Forward(frames) && forall k :: 0 <= k < |frames| ==> lo <= frames[k].now <= hi
  }

  lemma AllAt(frames: seq<Frame>, now: int)
    requires forall f :: f in frames ==> f.now == now
    ensures Between(frames, now, now)
  {
  }

  lemma JoinsForward(a: seq<Frame>, b: seq<Frame>, lo: int, mid: int, next: int, hi: int)
    requires Between(a, lo, mid) && Between(b, next, hi) && lo <= mid <= next <= hi
    ensures Between(a + b, lo, hi)
  {
  }

  function AfterAll(m: Meter, frames: seq<Frame>): Meter
    decreases |frames|
  {
    if frames == [] then m else AfterAll(AfterFrame(m, frames[0]).0, frames[1..])
  }

  /**
   How many reservations are granted and not yet given back, opens aside; None: one given back that
   never was granted.
   */
  function Owing(m: Meter, frames: seq<Frame>, owed: nat): Option<nat>
    decreases |frames|
  {
    if frames == [] then Some(owed)
    else match frames[0]
      case Taken(now, opens) =>
        var more := if Reserve(m.entry, Take, now).1 && !opens then 1 else 0;
        Owing(AfterFrame(m, frames[0]).0, frames[1..], owed + more)
      case GivenBack(_) => if owed == 0 then None else Owing(AfterFrame(m, frames[0]).0, frames[1..], owed - 1)
  }

  /** How many tables one user opens between `from` and `to`, both included. */
  function Opened(m: Meter, frames: seq<Frame>, from: int, to: int): nat
    decreases |frames|
  {
    if frames == [] then 0
    else (if AfterFrame(m, frames[0]).1 && from <= frames[0].now <= to then 1 else 0)
         + Opened(AfterFrame(m, frames[0]).0, frames[1..], from, to)
  }

  /** Given back to a window that has counted opens, all of which stand: the reservation was another window's. */
  predicate IsLate(m: Meter, f: Frame) {
    f.GivenBack? && m.pending == 0 && m.entry.Some? && m.entry.value.count > 0
  }

  /** How many reservations are given back late between `from` and `to`. */
  function Late(m: Meter, frames: seq<Frame>, from: int, to: int): nat
    decreases |frames|
  {
    if frames == [] then 0
    else (if IsLate(m, frames[0]) && from <= frames[0].now <= to then 1 else 0)
         + Late(AfterFrame(m, frames[0]).0, frames[1..], from, to)
  }

  /** How many more opens between `from` and one window later the entry still leaves room for. */
  function Room(m: Meter, from: int, clock: int): int {
    if clock > from + CREATE_RATE_WINDOW then 0
    else if m.entry.None? || clock < from then 2 * CREATE_RATE_MAX
    else
      var tables := m.entry.value.count - m.pending;
      if m.entry.value.start < from then 2 * CREATE_RATE_MAX - tables else CREATE_RATE_MAX - tables
  }

  predicate Windowed(m: Meter, clock: int) {
    if m.entry.None? then m.pending == 0
    else m.pending <= m.entry.value.count <= CREATE_RATE_MAX && m.entry.value.start <= clock
  }

  lemma {:induction false} OpensFitTheRoom(m: Meter, frames: seq<Frame>, from: int, clock: int)
    requires Windowed(m, clock) && Forward(frames) && (frames != [] ==> clock <= frames[0].now)
    ensures var to := from + CREATE_RATE_WINDOW;
            Opened(m, frames, from, to) <= Room(m, from, clock) + Late(m, frames, from, to)
    decreases |frames|
  {
    if frames != [] {
      OpensFitTheRoom(AfterFrame(m, frames[0]).0, frames[1..], from, frames[0].now);
    }
  }

  const NO_ENTRY := Meter(None, 0)

  /**
   However a user's reservations and refunds interleave: in any window's length at most twice the
   window's allowance opens, and one more for every refund that comes after its own window is over.
   */
  lemma AtMostTenAndTheLate(frames: seq<Frame>, from: int)
    requires Forward(frames)
    ensures var to := from + CREATE_RATE_WINDOW;
            Opened(NO_ENTRY, frames, from, to) <= 10 + Late(NO_ENTRY, frames, from, to)
  {
    OpensFitTheRoom(NO_ENTRY, frames, from, if frames == [] then from else frames[0].now);
  }

  lemma {:induction false} RunsSplit(m: Meter, a: seq<Frame>, b: seq<Frame>, from: int, to: int, owed: nat)
    ensures Opened(m, a + b, from, to) == Opened(m, a, from, to) + Opened(AfterAll(m, a), b, from, to)
    ensures Late(m, a + b, from, to) == Late(m, a, from, to) + Late(AfterAll(m, a), b, from, to)
    ensures Owing(m, a, owed).Some? ==> Owing(m, a + b, owed) == Owing(AfterAll(m, a), b, Owing(m, a, owed).value)
    decreases |a|
  {
    if a == [] {
      assert a + b == b;
    } else {
      assert (a + b)[1..] == a[1..] + b;
      var m' := AfterFrame(m, a[0]).0;
      match a[0]
      case Taken(now, opens) =>
        RunsSplit(m', a[1..], b, from, to, owed + if Reserve(m.entry, Take, now).1 && !opens then 1 else 0);
      case GivenBack(_) =>
        RunsSplit(m', a[1..], b, from, to, if owed == 0 then 0 else owed - 1);
    }
  }

  function Times(f: Frame, n: nat): (r: seq<Frame>)
    ensures |r| == n && forall k :: 0 <= k < n ==> r[k] == f
  {
    if n == 0 then [] else [f] + Times(f, n - 1)
  }

  /** Opens inside a window with room for them all succeed, and fill it by that much. */
  lemma {:induction false} Fills(m: Meter, f: Frame, n: nat, from: int, to: int, owed: nat)
    requires f.Taken? && f.opens && from <= f.now <= to
    requires m.entry.Some? && f.now <= m.entry.value.start + CREATE_RATE_WINDOW
             && m.entry.value.count + n <= CREATE_RATE_MAX
    ensures Opened(m, Times(f, n), from, to) == n && Late(m, Times(f, n), from, to) == 0
    ensures Owing(m, Times(f, n), owed) == Some(owed)
    ensures AfterAll(m, Times(f, n)) == Meter(Some(Window(m.entry.value.start, m.entry.value.count + n)), m.pending)
    decreases n
  {
    if n > 0 {
      Fills(AfterFrame(m, f).0, f, n - 1, from, to, owed);
      assert Times(f, n)[1..] == Times(f, n - 1);
    }
  }

  /** A full window that has run out is as good as an empty one that starts now. */
  lemma NextWindowFills(m: Meter, f: Frame, n: nat, from: int, to: int, owed: nat)
    requires f.Taken? && f.opens && from <= f.now <= to
    requires m.entry.Some? && f.now - m.entry.value.start > CREATE_RATE_WINDOW && 0 < n <= CREATE_RATE_MAX
    ensures Opened(m, Times(f, n), from, to) == n && Late(m, Times(f, n), from, to) == 0
    ensures Owing(m, Times(f, n), owed) == Some(owed)
  {
    assert Times(f, n)[1..] == Times(f, n - 1);
    Fills(AfterFrame(m, f).0, f, n - 1, from, to, owed);
  }

  /** A reservation in each of `n` windows, none of them given back. */
  function Held(t: int, n: nat): seq<Frame>
    decreases n
  {
    if n == 0 then [] else [Taken(t, false)] + Held(t + CREATE_RATE_WINDOW + 1, n - 1)
  }

  /** When the window after the last of those begins. */
  function HeldEnd(t: int, n: nat): (end: int)
    ensures t <= end
    decreases n
  {
    if n == 0 then t else HeldEnd(t + CREATE_RATE_WINDOW + 1, n - 1)
  }

  lemma {:induction false} HeldBetween(t: int, n: nat)
    ensures Between(Held(t, n), t, HeldEnd(t, n))
    decreases n
  {
    if n == 0 {
    } else {
      var next := t + CREATE_RATE_WINDOW + 1;
      HeldBetween(next, n - 1);
      AllAt([Taken(t, false)], t);
      JoinsForward([Taken(t, false)], Held(next, n - 1), t, t, next, HeldEnd(t, n));
    }
  }

  lemma {:induction false} HeldAreOwed(m: Meter, t: int, n: nat, from: int, to: int, owed: nat)
    requires m.entry.Some? ==> t - m.entry.value.start > CREATE_RATE_WINDOW
    ensures Opened(m, Held(t, n), from, to) == 0 && Late(m, Held(t, n), from, to) == 0
    ensures Owing(m, Held(t, n), owed) == Some(owed + n)
    ensures var end := AfterAll(m, Held(t, n)).entry;
            end.Some? ==> HeldEnd(t, n) - end.value.start > CREATE_RATE_WINDOW
    decreases n
  {
    if n == 0 {
    } else {
      var next := AfterFrame(m, Taken(t, false)).0;
      assert next == Meter(Some(Window(t, 1)), 1);
      assert Held(t, n)[1..] == Held(t + CREATE_RATE_WINDOW + 1, n - 1);
      HeldAreOwed(next, t + CREATE_RATE_WINDOW + 1, n - 1, from, to, owed + 1);
    }
  }

  /** A reservation given back at once starts a window and leaves it empty. */
  function Starts(t: int): seq<Frame> { [Taken(t, false), GivenBack(t)] }

  lemma StartsEmpty(m: Meter, t: int, from: int, to: int, owed: nat)
    requires m.entry.Some? ==> t - m.entry.value.start > CREATE_RATE_WINDOW
    ensures Opened(m, Starts(t), from, to) == 0 && Late(m, Starts(t), from, to) == 0
    ensures Owing(m, Starts(t), owed) == Some(owed)
    ensures AfterAll(m, Starts(t)) == Meter(Some(Window(t, 0)), 0)
  {
    var one, back := AfterFrame(m, Taken(t, false)).0, [GivenBack(t)];
    assert one == Meter(Some(Window(t, 1)), 1);
    assert Starts(t)[1..] == back && back[1..] == [];
    assert Opened(one, back, from, to) == 0 && Late(one, back, from, to) == 0;
    assert Owing(one, back, owed + 1) == Some(owed) && AfterAll(one, back) == Meter(Some(Window(t, 0)), 0);
  }

  /** `n` times: another window's reservation is given back to this one, and a table opens in its place. */
  function Swaps(now: int, n: nat): (r: seq<Frame>)
    ensures forall f :: f in r ==> f.now == now
  {
    if n == 0 then [] else [GivenBack(now), Taken(now, true)] + Swaps(now, n - 1)
  }

  lemma {:induction false} SwapsOpenMore(m: Meter, now: int, n: nat, from: int, to: int, owed: nat)
    requires m.entry.Some? && m.entry.value.count == CREATE_RATE_MAX && m.pending == 0
    requires now - m.entry.value.start <= CREATE_RATE_WINDOW && from <= now <= to && n <= owed
    ensures Opened(m, Swaps(now, n), from, to) == n && Late(m, Swaps(now, n), from, to) == n
    ensures Owing(m, Swaps(now, n), owed) == Some(owed - n)
    ensures AfterAll(m, Swaps(now, n)) == m
    decreases n
  {
    if n > 0 {
      var swap, rest := Swaps(now, n), Swaps(now, n - 1);
      assert swap[0] == GivenBack(now) && swap[1..] == [Taken(now, true)] + rest && swap[1..][1..] == rest;
      SwapsOpenMore(m, now, n - 1, from, to, owed - 1);
    }
  }

  /** When the `n` held reservations start to be given back: at the end of a window started after theirs. */
  function GiveBackTime(t: int, n: nat): int { HeldEnd(t, n) + CREATE_RATE_WINDOW }

  function LateRun(t: int, n: nat): seq<Frame> {
    var from := GiveBackTime(t, n);
    Held(t, n) + (Starts(from - CREATE_RATE_WINDOW) + (Times(Taken(from, true), 5)
                  + (Swaps(from, n) + Times(Taken(from + 1, true), 5))))
  }

  lemma ItIsForward(frames: seq<Frame>, lo: int, hi: int)
    requires Between(frames, lo, hi)
    ensures Forward(frames)
  {
  }

  lemma LateRunIsForward(t: int, n: nat)
    ensures Forward(LateRun(t, n))
  {
    var from := GiveBackTime(t, n);
    var start := from - CREATE_RATE_WINDOW;
    HeldBetween(t, n);
    var open, swaps, next := Times(Taken(from, true), 5), Swaps(from, n), Times(Taken(from + 1, true), 5);
    AllAt(open, from);
    AllAt(swaps, from);
    AllAt(next, from + 1);
    AllAt(Starts(start), start);
    hide Held, Times, Swaps, Forward, Starts, Between;
    JoinsForward(swaps, next, from, from, from + 1, from + 1);
    JoinsForward(open, swaps + next, from, from, from, from + 1);
    JoinsForward(Starts(start), open + (swaps + next), start, start, from, from + 1);
    JoinsForward(Held(t, n), Starts(start) + (open + (swaps + next)), t, start, start, from + 1);
    ItIsForward(LateRun(t, n), t, from + 1);
  }

  /** The opens of that run: five at the end of one window, `n` swaps, and five in the next window. */
  lemma FullWindowOpens(from: int, n: nat)
    ensures var (to, start) := (from + CREATE_RATE_WINDOW, from - CREATE_RATE_WINDOW);
            var opens := Times(Taken(from, true), 5) + (Swaps(from, n) + Times(Taken(from + 1, true), 5));
            && Opened(Meter(Some(Window(start, 0)), 0), opens, from, to) == 10 + n
            && Late(Meter(Some(Window(start, 0)), 0), opens, from, to) == n
            && Owing(Meter(Some(Window(start, 0)), 0), opens, n) == Some(0)
  {
    var to, start := from + CREATE_RATE_WINDOW, from - CREATE_RATE_WINDOW;
    var empty, full := Meter(Some(Window(start, 0)), 0), Meter(Some(Window(start, 5)), 0);
    var open, next := Times(Taken(from, true), 5), Times(Taken(from + 1, true), 5);
    Fills(empty, Taken(from, true), 5, from, to, n);
    SwapsOpenMore(full, from, n, from, to, n);
    NextWindowFills(full, Taken(from + 1, true), 5, from, to, 0);
    hide Opened, Late, Owing, AfterAll, Times, Swaps;
    RunsSplit(full, Swaps(from, n), next, from, to, n);
    RunsSplit(empty, open, Swaps(from, n) + next, from, to, n);
  }

  /**
   Every late refund can let one more through: `n` reservations given back windows after their own,
   and ten tables and `n` more open within one window's length. With `n == 0` ten are reached.
   */
  lemma LateRefundsLetMore(t: int, n: nat)
    ensures Forward(LateRun(t, n)) && Owing(NO_ENTRY, LateRun(t, n), 0) == Some(0)
    ensures var (from, to) := (GiveBackTime(t, n), GiveBackTime(t, n) + CREATE_RATE_WINDOW);
            Late(NO_ENTRY, LateRun(t, n), from, to) == n && Opened(NO_ENTRY, LateRun(t, n), from, to) == 10 + n
  {
    LateRunIsForward(t, n);
    var from := GiveBackTime(t, n);
    var to, start := from + CREATE_RATE_WINDOW, from - CREATE_RATE_WINDOW;
    var opens := Times(Taken(from, true), 5) + (Swaps(from, n) + Times(Taken(from + 1, true), 5));
    var held := AfterAll(NO_ENTRY, Held(t, n));
    HeldAreOwed(NO_ENTRY, t, n, from, to, 0);
    StartsEmpty(held, start, from, to, n);
    FullWindowOpens(from, n);
    hide Opened, Late, Owing, AfterAll, Held, Starts, Times, Swaps, Forward;
    RunsSplit(held, Starts(start), opens, from, to, n);
    RunsSplit(NO_ENTRY, Held(t, n), Starts(start) + opens, from, to, 0);
  }

  /**
   No run that gives back only what was granted, at most `n` of it late, opens more than `bound` in
   any window's length.
   */
  ghost predicate Bounds(bound: int, n: nat) {
    forall frames, from, to | Late(NO_ENTRY, frames, from, to) <= n && to == from + CREATE_RATE_WINDOW ::
      Forward(frames) && Owing(NO_ENTRY, frames, 0).Some? ==> Opened(NO_ENTRY, frames, from, to) <= bound
  }

  /** Ten and the late refunds is the exact bound. */
  lemma TenAndTheLateIsExact(bound: int, n: nat)
    ensures Bounds(bound, n) <==> 10 + n <= bound
  {
    forall frames, from, to | Late(NO_ENTRY, frames, from, to) <= n && to == from + CREATE_RATE_WINDOW
        && Forward(frames)
      ensures Opened(NO_ENTRY, frames, from, to) <= 10 + n
    {
      AtMostTenAndTheLate(frames, from);
    }
    LateRefundsLetMore(0, n);
  }

  /** So five in 300 seconds means ten in any 300 seconds exactly as long as no refund is late. */
  lemma TenHoldsIffNoneIsLate(n: nat)
    ensures Bounds(10, n) <==> n == 0
  {
    TenAndTheLateIsExact(10, n);
  }

  class TableLimits {
    var createRate: map<int, Window>
    var resyncRate: map<int, int>

    method TakeCreate(user: int, now: int) returns (ok: bool)
      modifies this`createRate
      ensures var kept := if |old(createRate)| > RATE_MAP_PRUNE_AT then Retained(CreateWindow(), old(createRate), now)
              else old(createRate);
              createRate == Put(kept, user, Reserve(Get(kept, user), Take, now).0)
                  && ok == Reserve(Get(kept, user), Take, now).1
    {
      if |createRate| > RATE_MAP_PRUNE_AT {
        createRate := map k | k in createRate && now - createRate[k].start <= CREATE_RATE_WINDOW :: createRate[k];
        assert createRate == Retained(CreateWindow(), old(createRate), now);
      }
      var e := if user in createRate then createRate[user] else Window(now, 0);
      if now - e.start > CREATE_RATE_WINDOW {
        e := Window(now, 0);
      }
      ok := e.count < CREATE_RATE_MAX;
      if ok {
        e := Window(e.start, e.count + 1);
      }
      createRate := createRate[user := e];
    }

    method RefundCreate(user: int, now: int)
      modifies this`createRate
      ensures createRate == Put(old(createRate), user, Reserve(Get(old(createRate), user), Refund, now).0)
    {
      if user in createRate {
        var e := createRate[user];
        createRate := createRate[user := Window(e.start, if e.count == 0 then 0 else e.count - 1)];
      }
    }

    method TakeResync(conn: int, now: int) returns (allowed: bool)
      modifies this`resyncRate
      ensures var kept := if |old(resyncRate)| > RATE_MAP_PRUNE_AT then Retained(ResyncLimit(), old(resyncRate), now)
              else old(resyncRate);
              resyncRate == Put(kept, conn, Resync(Get(kept, conn), now).0) && allowed == Resync(Get(kept, conn), now).1
    {
      if |resyncRate| > RATE_MAP_PRUNE_AT {
        resyncRate := map k | k in resyncRate && now - resyncRate[k] < RESYNC_MIN_INTERVAL :: resyncRate[k];
        assert resyncRate == Retained(ResyncLimit(), old(resyncRate), now);
      }
      allowed := true;
      if conn in resyncRate {
        if now - resyncRate[conn] < RESYNC_MIN_INTERVAL {
          allowed := false;
        } else {
          resyncRate := resyncRate[conn := now];
        }
      } else {
        resyncRate := resyncRate[conn := now];
      }
    }
  }

  // --- Device challenges ---------------------------------------------------------------

  const CHALLENGE_TTL: int := 120 * SECOND
  const MAX_PENDING: nat := 4096

  datatype Challenge = Challenge(device: string, issuedAt: int)

  /** About one nonce: record it for a device, or redeem it. */
  datatype Nonce = Issue(device: string) | Redeem

  function Answer(e: Option<Challenge>, i: Nonce, now: int): (Option<Challenge>, Option<string>) {
    match i
    case Issue(device) => (Some(Challenge(device, now)), None)
    case Redeem => (None, if e.Some? && now - e.value.issuedAt < CHALLENGE_TTL then Some(e.value.device) else None)
  }

  function Challenges(): Limit<Challenge, Nonce, Option<string>> {
    Limit(Answer, (c: Challenge, now) => now - c.issuedAt >= CHALLENGE_TTL)
  }

  lemma ChallengesSound()
    ensures Sound(Challenges(), (c: Challenge) => true)
  {
  }

  /** Given that each issue in the run was admitted, sweeping the pending map changes no answer. */
  lemma ChallengeSweepsAreInvisible(events: seq<Event<string, Nonce>>, clock: int)
    requires Legal(Challenges(), map[], events, clock)
    ensures Answers(Challenges(), map[], events) == Answers(Challenges(), map[], Requests(events))
  {
    ChallengesSound();
    PruningIsInvisible(Challenges(), map[], map[], (c: Challenge) => true, events, clock);
  }

  /** The state of a nonce's entry after a run of requests about any nonces. */
  function EntryAfter(m: map<string, Challenge>, events: seq<Event<string, Nonce>>): map<string, Challenge>
    decreases |events|
  {
    if events == [] then m
    else AfterEvent(Challenges(), EntryAfter(m, events[..|events| - 1]), events[|events| - 1])
  }

  predicate About(e: Event<string, Nonce>, nonce: string) { e.Ask? && e.key == nonce }

  /** The issue at `k` is the last thing that happened to the nonce. */
  ghost predicate LastIssued(events: seq<Event<string, Nonce>>, nonce: string, k: nat, device: string) {
    && k < |events| && About(events[k], nonce) && events[k].input == Issue(device)
    && forall j :: k < j < |events| ==> !About(events[j], nonce)
  }

  lemma {:induction false} PendingIsLastIssued(events: seq<Event<string, Nonce>>, nonce: string, device: string,
      at: int)
    requires forall i :: 0 <= i < |events| ==> events[i].Ask?
    ensures nonce in EntryAfter(map[], events) && EntryAfter(map[], events)[nonce] == Challenge(device, at) <==>
              exists k: nat :: LastIssued(events, nonce, k, device) && events[k].now == at
    decreases |events|
  {
    if events != [] {
      var init, last := events[..|events| - 1], events[|events| - 1];
      PendingIsLastIssued(init, nonce, device, at);
      if About(last, nonce) {
        if last.input == Issue(device) && last.now == at {
          assert LastIssued(events, nonce, |events| - 1, device);
        }
      } else {
        if k: nat :| LastIssued(init, nonce, k, device) && init[k].now == at {
          assert LastIssued(events, nonce, k, device) && events[k].now == at;
        }
        if k: nat :| LastIssued(events, nonce, k, device) && events[k].now == at {
          assert LastIssued(init, nonce, k, device) && init[k].now == at;
        }
      }
    }
  }

  /**
   A nonce is redeemed for a device exactly when it was issued for that device, in
   time, and nothing has redeemed it - or issued it anew - since.
   */
  lemma RedeemedOnceAndInTime(events: seq<Event<string, Nonce>>, nonce: string, device: string, now: int)
    requires forall i :: 0 <= i < |events| ==> events[i].Ask?
    ensures Answer(Get(EntryAfter(map[], events), nonce), Redeem, now).1 == Some(device) <==>
              exists k: nat :: LastIssued(events, nonce, k, device) && now - events[k].now < CHALLENGE_TTL
  {
    var m := EntryAfter(map[], events);
    if nonce in m {
      PendingIsLastIssued(events, nonce, m[nonce].device, m[nonce].issuedAt);
    }
    if k: nat :| LastIssued(events, nonce, k, device) {
      PendingIsLastIssued(events, nonce, device, events[k].now);
    }
  }

  class DeviceChallenges {
    var pending: map<string, Challenge>

    method IssueFor(device: string, nonce: string, now: int) returns (admitted: bool)
      modifies this
      ensures var kept := Retained(Challenges(), old(pending), now);
              && (admitted <==> |kept| < MAX_PENDING)
              && pending == if admitted then Put(kept, nonce, Answer(Get(kept, nonce), Issue(device), now).0) else kept
    {
      pending := map k | k in pending && now - pending[k].issuedAt < CHALLENGE_TTL :: pending[k];
      assert pending == Retained(Challenges(), old(pending), now);
      if |pending| >= MAX_PENDING {
        return false;
      }
      pending := pending[nonce := Challenge(device, now)];
      admitted := true;
    }

    method TakeNonce(nonce: string, now: int) returns (device: Option<string>)
      modifies this
      ensures pending == Put(old(pending), nonce, Answer(Get(old(pending), nonce), Redeem, now).0) && nonce !in pending
      ensures device == Answer(Get(old(pending), nonce), Redeem, now).1
    {
      if nonce !in pending {
        return None;
      }
      var c := pending[nonce];
      pending := pending - {nonce};
      if now - c.issuedAt >= CHALLENGE_TTL {
        return None;
      }
      device := Some(c.device);
    }
  }
}
