/**
 Which literals the reader takes: exactly those whose items it can tell apart and
 whose escapes `int` takes - more than Rust's, and which of them are Rust's.
 */
module RustReading {
  import opened PyText
  import opened RustLiterals
  import opened RustPieces
  import opened Wrappers

  // --- The text says which item stands there ---------------------------------------------

  function EscapeItem(s: string, j: nat): Option<Item>
    requires j < |s|
  {
    if j + 1 >= |s| then None
    else
      var n := s[j + 1];
      if n == '\n' then Some(Continue(false, s[j + 2..PastBlank(s, j + 2)]))
      else if n == '\r' && j + 2 < |s| && s[j + 2] == '\n' then Some(Continue(true, s[j + 3..PastBlank(s, j + 3)]))
      else if Escaped(n).Some? then Some(Simple(n))
      else if n == 'x' then if j + 4 <= |s| then Some(Byte(s[j + 2], s[j + 3])) else None
      else if n == 'u' then
        var k := Find(s, "}", j);
        if k.Some? && k.value >= j + 3 then Some(Unicode(s[j + 2], s[j + 3..k.value])) else None
      else None
  }

  function ItemAt(s: string, j: nat): Option<Item> {
    if j >= |s| || s[j] == '"' then None
    else if s[j] == '\\' then EscapeItem(s, j)
    else if s[j] == '\n' then Some(Newline(false))
    else if s[j] == '\r' && j + 1 < |s| && s[j + 1] == '\n' then Some(Newline(true))
    else Some(Plain(s[j]))
  }

  lemma ContinueAt(s: string, j: nat, crlf: bool, blank: string)
    requires Shaped(Continue(crlf, blank)) && At(s, j, Written(Continue(crlf, blank)))
    requires var k := j + |Written(Continue(crlf, blank))|; k < |s| && !Blankish(s[k])
    ensures ItemAt(s, j) == Some(Continue(crlf, blank))
  {
    var end := LineEnd(crlf);
    AtParts(s, j, "\\" + end, blank);
    AtParts(s, j, "\\", end);
    AtChar(s, j, "\\", 0);
    AtChar(s, j + 1, end, 0);
    if crlf {
      AtChar(s, j + 1, end, 1);
    }
    BlankEnds(s, j + 1 + |end|, blank);
    SliceAt(s, j + 1 + |end|, blank);
  }

  lemma ByteAt(s: string, j: nat, hi: char, lo: char)
    requires At(s, j, Written(Byte(hi, lo)))
    ensures ItemAt(s, j) == Some(Byte(hi, lo))
  {
    var w := Written(Byte(hi, lo));
    AtChar(s, j, w, 0);
    AtChar(s, j, w, 1);
    AtChar(s, j, w, 2);
    AtChar(s, j, w, 3);
  }

  lemma UnicodeAt(s: string, j: nat, open: char, digits: string)
    requires Shaped(Unicode(open, digits)) && At(s, j, Written(Unicode(open, digits)))
    ensures ItemAt(s, j) == Some(Unicode(open, digits))
  {
    var w := Written(Unicode(open, digits));
    BraceFound(s, j, open, digits);
    AtChar(s, j, w, 2);
    AtParts(s, j, "\\u" + [open] + digits, "}");
    AtParts(s, j, "\\u" + [open], digits);
    SliceAt(s, j + 3, digits);
    hide At, Find, Slice;
  }

  lemma NewlineAt(s: string, j: nat, crlf: bool)
    requires At(s, j, LineEnd(crlf))
    ensures ItemAt(s, j) == Some(Newline(crlf))
  {
    AtChar(s, j, LineEnd(crlf), 0);
    if crlf {
      AtChar(s, j, LineEnd(crlf), 1);
    }
  }

  lemma ItemIsThere(s: string, j: nat, i: Item, rest: seq<Item>)
    requires Fits(i, rest) && At(s, j, Written(i)) && At(s, j + |Written(i)|, Follows(rest))
    ensures ItemAt(s, j) == Some(i)
  {
    hide Follows, Find, PastBlank;
    AtChar(s, j + |Written(i)|, Follows(rest), 0);
    match i
    case Plain(c) => AtChar(s, j, [c], 0);
    case Newline(crlf) => NewlineAt(s, j, crlf);
    case Simple(letter) => AtChar(s, j, Written(i), 0); AtChar(s, j, Written(i), 1);
    case Byte(hi, lo) => ByteAt(s, j, hi, lo);
    case Unicode(open, digits) => UnicodeAt(s, j, open, digits);
    case Continue(crlf, blank) => ContinueAt(s, j, crlf, blank);
  }

  lemma QuoteIsThere(s: string, j: nat)
    requires At(s, j, Follows([]))
    ensures ItemAt(s, j).None?
  {
    AtChar(s, j, Follows([]), 0);
  }

  lemma FollowsSplits(s: string, j: nat, items: seq<Item>)
    requires items != []
    ensures At(s, j, Follows(items)) <==>
            At(s, j, Written(items[0])) && At(s, j + |Written(items[0])|, Follows(items[1..]))
  {
    hide At, Written;
    assert Follows(items) == Written(items[0]) + Follows(items[1..]);
    AtParts(s, j, Written(items[0]), Follows(items[1..]));
  }

  /** A text is the inside of a literal in one way at most. */
  lemma {:induction false} ItemsAreUnique(s: string, j: nat, items: seq<Item>, others: seq<Item>)
    requires Laid(items) && At(s, j, Follows(items))
    requires Laid(others) && At(s, j, Follows(others))
    ensures items == others
    decreases |items|
  {
    hide At, Follows, Written, Fits, ItemAt;
    if items == [] || others == [] {
      if items != [] {
        QuoteIsThere(s, j);
        FollowsSplits(s, j, items);
        ItemIsThere(s, j, items[0], items[1..]);
      }
      if others != [] {
        QuoteIsThere(s, j);
        FollowsSplits(s, j, others);
        ItemIsThere(s, j, others[0], others[1..]);
      }
    } else {
      FollowsSplits(s, j, items);
      FollowsSplits(s, j, others);
      ItemIsThere(s, j, items[0], items[1..]);
      ItemIsThere(s, j, others[0], others[1..]);
      ItemsAreUnique(s, j + |Written(items[0])|, items[1..], others[1..]);
      assert items == [items[0]] + items[1..];
      assert others == [others[0]] + others[1..];
    }
  }

  // --- What is read is made of items -----------------------------------------------------------

  /** A turn of the loop passes one item, but for the CR of a CR LF. */
  predicate Passed(py: Python, s: string, j: nat, i: Item, next: nat) {
    && Shaped(i) && Taken(py, i) && At(s, j, Written(i)) && next == j + |Written(i)| < |s|
    && (i.Plain? && i.c == '\r' ==> s[next] != '\n') && (i.Continue? ==> !Blankish(s[next]))
  }

  lemma ContinuePassed(py: Python, s: string, j: nat, crlf: bool)
    requires var k := j + 1 + |LineEnd(crlf)|; k <= |s| && PastBlank(s, k) < |s| && At(s, j, "\\" + LineEnd(crlf))
    ensures var k := j + 1 + |LineEnd(crlf)|;
            Passed(py, s, j, Continue(crlf, s[k..PastBlank(s, k)]), PastBlank(s, k))
  {
    var k := j + 1 + |LineEnd(crlf)|;
    var blank := s[k..PastBlank(s, k)];
    AtParts(s, j, "\\" + LineEnd(crlf), blank);
  }

  lemma UnicodePassed(py: Python, s: string, j: nat, k: nat)
    requires j + 3 <= k && k + 1 < |s| && s[j] == '\\' && s[j + 1] == 'u' && Find(s, "}", j) == Some(k)
    requires Chr(py.int16(s[j + 3..k])).Some?
    ensures Passed(py, s, j, Unicode(s[j + 2], s[j + 3..k]), k + 1)
  {
    var digits := s[j + 3..k];
    forall i | j <= i < k ensures s[i] != '}' {
      AtOne(s, i, '}');
    }
    var head := ['\\', 'u'] + [s[j + 2]];
    assert "\\u" == ['\\', 'u'];
    AtOne(s, k, '}');
    AtParts(s, j, head, digits);
    AtParts(s, j, head + digits, "}");
    assert Written(Unicode(s[j + 2], digits)) == head + digits + "}";
  }

  lemma BytePassed(py: Python, s: string, j: nat)
    requires j + 4 < |s| && s[j] == '\\' && s[j + 1] == 'x' && Chr(py.int16(Slice(s, j + 2, j + 4))).Some?
    ensures Passed(py, s, j, Byte(s[j + 2], s[j + 3]), j + 4)
  {
    assert Slice(s, j + 2, j + 4) == [s[j + 2], s[j + 3]];
  }

  lemma SimplePassed(py: Python, s: string, j: nat)
    requires j + 2 < |s| && s[j] == '\\' && Escaped(s[j + 1]).Some?
    ensures Passed(py, s, j, Simple(s[j + 1]), j + 2)
  {
  }

  lemma LineEndAt(s: string, j: nat, crlf: bool)
    requires j + 2 < |s| && s[j] == '\\'
    requires if crlf then s[j + 1] == '\r' && s[j + 2] == '\n' else s[j + 1] == '\n'
    ensures At(s, j, "\\" + LineEnd(crlf))
  {
  }

  lemma EscapePassed(py: Python, s: string, j: nat) returns (i: Item)
    requires NoneFromNothing(py) && j < |s| && s[j] == '\\'
    requires EscapeTurn(py, s, j).Turn? && EscapeTurn(py, s, j).next < |s|
    ensures Passed(py, s, j, i, EscapeTurn(py, s, j).next)
  {
    hide Passed, At, Find, PastBlank, Escaped, Chr;
    var n := s[j + 1];
    if n == '\n' || (n == '\r' && s[j + 2] == '\n') {
      LineEndAt(s, j, n == '\r');
      ContinuePassed(py, s, j, n == '\r');
      var k := if n == '\n' then j + 2 else j + 3;
      i := Continue(n == '\r', s[k..PastBlank(s, k)]);
    } else if Escaped(n).Some? {
      SimplePassed(py, s, j);
      i := Simple(n);
    } else if n == 'x' {
      BytePassed(py, s, j);
      i := Byte(s[j + 2], s[j + 3]);
    } else {
      var k := Find(s, "}", j).value;
      AtOne(s, k, '}');
      assert ['}'] == "}";
      NotRightBehind(py, s, j, k);
      UnicodePassed(py, s, j, k);
      i := Unicode(s[j + 2], s[j + 3..k]);
    }
  }

  /** Were the brace the skipped character, `int` would be given nothing. */
  lemma NotRightBehind(py: Python, s: string, j: nat, k: nat)
    requires NoneFromNothing(py) && j <= k < |s| && s[k] == '}' && s[j] == '\\' && (j < k ==> s[j + 1] == 'u')
    requires Chr(py.int16(Slice(s, j + 3, k))).Some?
    ensures k >= j + 3 && Slice(s, j + 3, k) == s[j + 3..k]
  {
  }

  predicate PairAt(s: string, j: nat) { j + 1 < |s| && s[j] == '\r' && s[j + 1] == '\n' }

  lemma TurnPassed(py: Python, s: string, j: nat) returns (i: Item)
    requires NoneFromNothing(py) && !PairAt(s, j)
    requires TurnAt(py, s, j).Turn? && TurnAt(py, s, j).next < |s|
    ensures Passed(py, s, j, i, TurnAt(py, s, j).next)
  {
    hide EscapeTurn;
    if s[j] == '\\' {
      i := EscapePassed(py, s, j);
    } else if s[j] == '\n' {
      i := Newline(false);
    } else {
      i := Plain(s[j]);
    }
  }

  lemma PairPassed(py: Python, s: string, j: nat, out: Points)
    requires PairAt(s, j) && ReadBody(py, s, j, out).Success?
    ensures Passed(py, s, j, Newline(true), j + 2)
            && ReadBody(py, s, j, out) == ReadBody(py, s, j + 2, out + ['\n' as int])
  {
    assert At(s, j, LineEnd(true));
    NewlineTurns(py, s, j, true, out);
  }

  lemma PassedFits(py: Python, s: string, j: nat, i: Item, next: nat, rest: seq<Item>)
    requires Passed(py, s, j, i, next) && Laid(rest) && AllTaken(py, rest) && At(s, next, Follows(rest))
    ensures Laid([i] + rest) && AllTaken(py, [i] + rest) && At(s, j, Follows([i] + rest))
  {
    hide At, Follows, Written, Shaped, Taken;
    AtChar(s, next, Follows(rest), 0);
    FollowsSplits(s, j, [i] + rest);
    assert ([i] + rest)[1..] == rest;
  }

  lemma NoItems(py: Python, s: string, j: nat) returns (items: seq<Item>)
    requires TurnAt(py, s, j).Close?
    ensures Laid(items) && AllTaken(py, items) && At(s, j, Follows(items))
  {
    items := [];
    AtOne(s, j, '"');
    assert Follows(items) == ['"'];
  }

  /** Whatever the loop reads to its end is made of items, each taken, and the closing quote. */
  lemma {:induction false} ReadsItems(py: Python, s: string, j: nat, out: Points) returns (items: seq<Item>)
    requires NoneFromNothing(py) && ReadBody(py, s, j, out).Success?
    ensures Laid(items) && AllTaken(py, items) && At(s, j, Follows(items))
    decreases |s| - j
  {
    hide TurnAt, Passed, At, Follows, Laid;
    match TurnAt(py, s, j)
    case Close =>
      items := NoItems(py, s, j);
    case Turn(piece, next) =>
      var i: Item, after: nat;
      if PairAt(s, j) {
        PairPassed(py, s, j, out);
        i, after := Newline(true), j + 2;
        items := ReadsItems(py, s, after, out + ['\n' as int]);
      } else {
        i := TurnPassed(py, s, j);
        after := next;
        items := ReadsItems(py, s, after, out + piece);
      }
      PassedFits(py, s, j, i, after, items);
      items := [i] + items;
  }

  /** From inside a quote: such items up to a quote stand at `j`. */
  predicate ItemsAt(py: Python, s: string, j: nat, items: seq<Item>) {
    Laid(items) && AllTaken(py, items) && At(s, j, Follows(items))
  }

  /** The loop succeeds exactly on such items, closed by a quote. */
  lemma BodyReadsExactly(py: Python, s: string, j: nat, out: Points)
    requires NoneFromNothing(py)
    ensures ReadBody(py, s, j, out).Success? <==> exists items :: ItemsAt(py, s, j, items)
  {
    hide ReadBody, Laid, AllTaken, At, Follows;
    if ReadBody(py, s, j, out).Success? {
      var items := ReadsItems(py, s, j, out);
      assert ItemsAt(py, s, j, items);
    }
    forall items | ItemsAt(py, s, j, items) ensures ReadBody(py, s, j, out).Success? {
      BodyRead(py, s, j, items, out);
    }
  }

  // --- Exactly these are taken ----------------------------------------------------------------

  /** An ordinary literal stands at `i` that the script takes. */
  predicate TakenAt(py: Python, s: string, i: nat, p: Prefix, items: seq<Item>) {
    Laid(items) && AllTaken(py, items) && At(s, i, Quoted(p, items))
  }

  /** A raw one, its opening short enough to be seen. */
  predicate SeenAt(s: string, i: nat, p: Prefix, hashes: nat, raw: string) {
    |Mark(p)| + hashes + 2 <= WINDOW && Encloses(hashes, raw) && At(s, i, Raw(p, hashes, raw))
  }

  lemma QuotedAssembled(s: string, i: nat, p: Prefix, items: seq<Item>)
    requires At(s, i, Mark(p)) && At(s, i + |Mark(p)|, "\"") && At(s, i + |Mark(p)| + 1, Follows(items))
    ensures At(s, i, Quoted(p, items))
  {
    hide At, Mark, Follows;
    AtParts(s, i, Mark(p), "\"");
    AtParts(s, i, Mark(p) + "\"", Follows(items));
  }

  lemma QuotedFound(py: Python, s: string, i: nat) returns (p: Prefix, items: seq<Item>)
    requires NoneFromNothing(py) && RawOpening(s, i).None? && ReadString(py, s, i).Success?
    ensures TakenAt(py, s, i, p, items)
  {
    hide At, ReadBody, Follows, Laid, AllTaken, RawOpening;
    p := if s[i] == '"' then Bare else if s[i] == 'b' then B else C;
    var q := i + |Mark(p)|;
    if p == Bare {
      EmptyAt(s, i);
    } else {
      AtOne(s, i, s[i]);
      assert Mark(p) == [s[i]];
    }
    AtOne(s, q, '"');
    items := ReadsItems(py, s, q + 1, []);
    assert ['"'] == "\"";
    QuotedAssembled(s, i, p, items);
  }

  lemma FirstCloseEncloses(s: string, start: nat, hashes: nat, end: nat)
    requires Find(s, "\"" + Hashes(hashes), start) == Some(end)
    ensures start <= end <= |s| && Encloses(hashes, s[start..end])
            && At(s, start, s[start..end] + "\"" + Hashes(hashes))
  {
    hide Hashes;
    var close, raw := "\"" + Hashes(hashes), s[start..end];
    assert At(s, start, raw);
    AtParts(s, start, raw, close);
    assert raw + close == raw + "\"" + Hashes(hashes);
    forall k: nat | k < |raw| ensures !ClosesAt(hashes, raw, k) {
      AtInside(s, start, raw + "\"" + Hashes(hashes), start + k, close);
    }
  }

  lemma RawAssembledAt(s: string, i: nat, p: Prefix, hashes: nat, raw: string)
    requires At(s, i, RawOpen(p, hashes)) && At(s, i + |RawOpen(p, hashes)|, raw + "\"" + Hashes(hashes))
    ensures At(s, i, Raw(p, hashes, raw))
  {
    hide At, Mark, Hashes;
    var rest := raw + "\"" + Hashes(hashes);
    AtParts(s, i, RawOpen(p, hashes), rest);
    assert Raw(p, hashes, raw) == RawOpen(p, hashes) + rest;
  }

  lemma RawFound(s: string, i: nat, end: nat) returns (p: Prefix, hashes: nat, raw: string)
    requires RawOpening(s, i).Some?
    requires var o := RawOpening(s, i).value; Find(s, "\"" + Hashes(o.hashes), i + o.length) == Some(end)
    ensures SeenAt(s, i, p, hashes, raw) && end + 1 + RawOpening(s, i).value.hashes == i + |Raw(p, hashes, raw)|
  {
    hide At, Hashes, Find, RawOpening, Encloses, Mark;
    p, hashes := RawMeans(s, i);
    RawOpens(s, i, p, hashes);
    var start := i + |Mark(p)| + hashes + 2;
    FirstCloseEncloses(s, start, hashes, end);
    raw := s[start..end];
    assert |RawOpen(p, hashes)| == |Mark(p)| + hashes + 2;
    RawAssembledAt(s, i, p, hashes, raw);
  }

  /**
   The reader succeeds exactly where a raw literal stands whose opening it sees, or an
   ordinary one of items it can tell apart and takes.
   */
  lemma ReadsExactly(py: Python, s: string, i: nat)
    requires NoneFromNothing(py)
    ensures ReadString(py, s, i).Success? <==>
            (exists p, items :: TakenAt(py, s, i, p, items)) || (exists p, hashes, raw :: SeenAt(s, i, p, hashes, raw))
  {
    hide At, Find, Laid, AllTaken, Encloses, ReadBody, Hashes, RawOpening, Mark, Unix;
    if ReadString(py, s, i).Success? {
      if RawOpening(s, i).Some? {
        var o := RawOpening(s, i).value;
        var p, hashes, raw := RawFound(s, i, Find(s, "\"" + Hashes(o.hashes), i + o.length).value);
      } else {
        var p, items := QuotedFound(py, s, i);
      }
    }
    hide ReadString;
    forall p, items | TakenAt(py, s, i, p, items) ensures ReadString(py, s, i).Success? {
      LiteralRead(py, s, i, p, items);
    }
    forall p, hashes, raw | SeenAt(s, i, p, hashes, raw) ensures ReadString(py, s, i).Success? {
      RawReadsBack(py, s, i, p, hashes, raw);
    }
  }

  // --- And these of them are Rust's ------------------------------------------------------------

  /** Under this prefix Rust has the item too: no bare CR, and of bytes, characters and NULs what the prefix allows. */
  predicate RustWrites(p: Prefix, i: Item) {
    Wellformed(i) &&
    match i
    case Plain(c) => c != '\r' && (p == B ==> c as int < 0x80) && (p == C ==> c != '\0')
    case Simple(letter) => p == C ==> letter != '0'
    case Byte(hi, lo) => (p == Bare ==> hi <= '7') && (p == C ==> hi != '0' || lo != '0')
    case Unicode(_, digits) => p != B && (p == C ==> HexNumber(digits) != 0)
    case _ => true
  }

  predicate RustLiteral(p: Prefix, items: seq<Item>) {
    Laid(items) && forall k :: 0 <= k < |items| ==> RustWrites(p, items[k])
  }

  /** An item only the script takes. */
  predicate Loose(p: Prefix, i: Item) { Shaped(i) && !RustWrites(p, i) }

  /** What is read back as Rust means it holds of every literal of Rust. */
  lemma {:induction false} RustLiteralIsProper(p: Prefix, items: seq<Item>)
    requires RustLiteral(p, items)
    ensures Proper(items)
    decreases |items|
  {
    hide Fits, RustWrites;
    if items != [] {
      var rest := items[1..];
      assert forall k :: 0 <= k < |rest| ==> rest[k] == items[k + 1];
      RustLiteralIsProper(p, rest);
      WrittenIsWellformed(p, items[0]);
    }
  }

  lemma WrittenIsWellformed(p: Prefix, i: Item)
    requires RustWrites(p, i)
    ensures Wellformed(i)
  {
  }

  lemma OnePrefix(s: string, i: nat, p: Prefix, items: seq<Item>, q: Prefix, others: seq<Item>)
    requires At(s, i, Quoted(p, items)) && At(s, i, Quoted(q, others))
    ensures p == q && At(s, i + |Mark(p)| + 1, Follows(items)) && At(s, i + |Mark(p)| + 1, Follows(others))
  {
    hide At, Follows;
    AtParts(s, i, Mark(p) + "\"", Follows(items));
    AtParts(s, i, Mark(q) + "\"", Follows(others));
    AtChar(s, i, Mark(p) + "\"", 0);
    AtChar(s, i, Mark(q) + "\"", 0);
  }

  lemma {:induction false} LaidIsShaped(items: seq<Item>, k: nat)
    requires Laid(items) && k < |items|
    ensures Shaped(items[k])
    decreases |items|
  {
    if k > 0 {
      LaidIsShaped(items[1..], k - 1);
    }
  }

  /** A literal the script can take apart is one Rust could have written exactly if none of its items is loose. */
  lemma RustsIffNoneIsLoose(s: string, i: nat, p: Prefix, items: seq<Item>)
    requires Laid(items) && At(s, i, Quoted(p, items))
    ensures (exists q, others :: RustLiteral(q, others) && At(s, i, Quoted(q, others)))
            <==> forall k :: 0 <= k < |items| ==> !Loose(p, items[k])
  {
    hide At, Laid, RustWrites, Shaped, Quoted, Follows;
    forall k | 0 <= k < |items| ensures Shaped(items[k]) {
      LaidIsShaped(items, k);
    }
    forall q, others | RustLiteral(q, others) && At(s, i, Quoted(q, others)) ensures q == p && others == items {
      OnePrefix(s, i, p, items, q, others);
      ItemsAreUnique(s, i + |Mark(p)| + 1, items, others);
    }
    assert (forall k :: 0 <= k < |items| ==> !Loose(p, items[k])) ==> RustLiteral(p, items);
  }

  // --- Of Rust's own, not all -------------------------------------------------------------------

  const DOUBLED: string := "4__1"

  lemma DoubledIsRusts()
    ensures RustDigits(DOUBLED) && HexNumber(DOUBLED) == 0x41 && !Spaced(DOUBLED)
  {
    assert DOUBLED[..3] == "4__" && "4__"[..2] == "4_" && "4_"[..1] == "4" && "4"[..0] == "";
    assert HexNumber("4") == 4 && HexNumber("4_") == 4 && HexNumber("4__") == 4;
    assert DOUBLED[1..] == "__1" && "__1"[1..] == "_1" && "_1"[1..] == "1" && "1"[1..] == "";
    assert CountDigits("1") == 1 && CountDigits("_1") == 1 && CountDigits("__1") == 1;
    assert DOUBLED[1] == '_' && DOUBLED[2] == '_';
  }

  /** Rust takes any underscores behind the first digit; `int` wants them one at a time. */
  lemma DoubledUnderscoreIsRefused(py: Python)
    requires Reads(py)
    ensures var items := [Unicode('{', DOUBLED)];
            RustLiteral(Bare, items) && ReadString(py, Quoted(Bare, items), 0) == Failure(ValueError)
  {
    hide ReadString, Reads, Spaced, HexNumber, CountDigits, RustDigits, At;
    var items := [Unicode('{', DOUBLED)];
    DoubledIsRusts();
    assert '}' !in DOUBLED;
    assert items[1..] == [];
    assert Fits(items[0], []) && Laid(items[1..]);
    assert RustWrites(Bare, items[0]);
    assert !AllSpaced(items);
    hide Laid, RustWrites, AllSpaced, Quoted;
    RustLiteralIsProper(Bare, items);
    Within("", Quoted(Bare, items), "");
    assert "" + Quoted(Bare, items) + "" == Quoted(Bare, items);
    OrdinaryReadsBack(py, Quoted(Bare, items), 0, Bare, items);
  }
}
