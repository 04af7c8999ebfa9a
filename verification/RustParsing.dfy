/**
 Which files the scan gets through: exactly those made of well-placed pieces. The
 pieces are found again from the text, whatever it is.
 */
module RustParsing {
  import opened PyText
  import opened RustLiterals
  import opened RustPieces
  import opened RustReading
  import opened RustTokens
  import opened Wrappers

  // --- A comment's inside, found from the text ---------------------------------------------

  /** From inside a comment: it closes, or the file ends in it, so many levels deep. */
  datatype Interior = Closed(body: Comment) | Open(levels: seq<Comment>)

  /** What of the text it is. */
  function Spelled(r: Interior): string {
    match r
    case Closed(body) => CommentText(body) + "*/"
    case Open(levels) => if levels == [] then "" else CommentText(levels[0]) + OpenText(levels[1..])
  }

  predicate Found(s: string, k: nat, r: Interior) {
    && At(s, k, Spelled(r))
    && match r
       case Closed(body) => Quiet(body, "*/")
       case Open(levels) =>
         levels != [] && Quiet(levels[0], OpenText(levels[1..])) && QuietLevels(levels[1..]) && k + |Spelled(r)| == |s|
  }

  /** What starts at `k`, before what was found behind it. */
  function WithChar(c: char, r: Interior): Interior {
    match r
    case Closed(body) => Closed(Text(c, body))
    case Open(levels) => if levels == [] then r else Open([Text(c, levels[0])] + levels[1..])
  }

  function WithComment(inner: Comment, r: Interior): Interior {
    match r
    case Closed(body) => Closed(Nested(inner, body))
    case Open(levels) => if levels == [] then r else Open([Nested(inner, levels[0])] + levels[1..])
  }

  lemma CharFound(s: string, k: nat, r: Interior)
    requires k < |s| && !At(s, k, "/*") && !At(s, k, "*/") && Found(s, k + 1, r)
    ensures Found(s, k, WithChar(s[k], r))
  {
    var c, t := s[k], Spelled(r);
    AtOne(s, k, c);
    AtTwo(s, k, '/', '*');
    AtTwo(s, k, '*', '/');
    assert ['/', '*'] == "/*" && ['*', '/'] == "*/";
    if t != "" {
      AtChar(s, k + 1, t, 0);
    }
    hide At, OpenText, QuietLevels;
    AtParts(s, k, [c], t);
    match r {
      case Closed(body) =>
        assert Spelled(WithChar(c, r)) == [c] + t;
      case Open(levels) =>
        assert ([Text(c, levels[0])] + levels[1..])[1..] == levels[1..];
        assert Spelled(WithChar(c, r)) == [c] + t;
    }
  }

  lemma NestedText(inner: Comment, rest: Comment)
    ensures CommentText(Nested(inner, rest)) == "/*" + CommentText(inner) + "*/" + CommentText(rest)
  {
  }

  lemma SpelledWithComment(inner: Comment, r: Interior)
    requires r.Open? ==> r.levels != []
    ensures Spelled(WithComment(inner, r)) == "/*" + (CommentText(inner) + "*/") + Spelled(r)
  {
    hide CommentText, OpenText;
    var i := CommentText(inner);
    match r
    case Closed(body) =>
      NestedText(inner, body);
      assert "/*" + i + "*/" + CommentText(body) + "*/" == "/*" + (i + "*/") + (CommentText(body) + "*/");
    case Open(levels) =>
      NestedText(inner, levels[0]);
      assert ([Nested(inner, levels[0])] + levels[1..])[1..] == levels[1..];
      var c, after := CommentText(levels[0]), OpenText(levels[1..]);
      assert "/*" + i + "*/" + c + after == "/*" + (i + "*/") + (c + after);
  }

  lemma CommentFound(s: string, k: nat, inner: Comment, next: nat, r: Interior)
    requires At(s, k, "/*") && Found(s, k + 2, Closed(inner)) && next == k + 4 + |CommentText(inner)|
             && Found(s, next, r)
    ensures Found(s, k, WithComment(inner, r))
  {
    hide At, OpenText, QuietLevels, CommentText;
    var i, t := CommentText(inner), Spelled(r);
    SpelledWithComment(inner, r);
    hide Spelled;
    assert Spelled(Closed(inner)) == i + "*/" by { SpelledClosed(inner); }
    AtParts(s, k, "/*", i + "*/");
    AtParts(s, k, "/*" + (i + "*/"), t);
    if r.Open? {
      assert ([Nested(inner, r.levels[0])] + r.levels[1..])[1..] == r.levels[1..];
    }
  }

  lemma SpelledClosed(body: Comment)
    ensures Spelled(Closed(body)) == CommentText(body) + "*/"
  {
  }

  lemma OpenFound(s: string, k: nat, levels: seq<Comment>)
    requires At(s, k, "/*") && Found(s, k + 2, Open(levels))
    ensures Found(s, k, Open([Done] + levels))
    ensures At(s, k, OpenText(levels)) && k + |OpenText(levels)| == |s| && QuietLevels(levels)
  {
    hide At, CommentText;
    var t := Spelled(Open(levels));
    AtParts(s, k, "/*", t);
    assert OpenText(levels) == "/*" + t;
    assert ([Done] + levels)[1..] == levels;
    NoText();
    assert Spelled(Open([Done] + levels)) == "/*" + t;
  }

  lemma NoText()
    ensures CommentText(Done) == ""
  {
  }

  lemma EndFound(s: string)
    ensures Found(s, |s|, Open([Done]))
  {
  }

  lemma CloseFoundAt(s: string, k: nat)
    requires At(s, k, "*/")
    ensures Found(s, k, Closed(Done))
  {
    assert "" + "*/" == "*/";
  }

  /** Any text is the inside of a comment, closed or not. */
  lemma {:induction false} InsideFound(s: string, k: nat) returns (r: Interior)
    requires k <= |s|
    ensures Found(s, k, r)
    decreases |s| - k
  {
    hide At, Found, Spelled, WithChar, WithComment, CommentText;
    if k == |s| {
      r := Open([Done]);
      EndFound(s);
    } else if At(s, k, "/*") {
      FitsWhereAt(s, k, "/*");
      var inner := InsideFound(s, k + 2);
      match inner
      case Open(levels) =>
        OpenFound(s, k, levels);
        r := Open([Done] + levels);
      case Closed(body) =>
        var next := k + 4 + |CommentText(body)|;
        ClosedFits(s, k + 2, body);
        var rest := InsideFound(s, next);
        CommentFound(s, k, body, next, rest);
        r := WithComment(body, rest);
    } else if At(s, k, "*/") {
      CloseFoundAt(s, k);
      r := Closed(Done);
    } else {
      var rest := InsideFound(s, k + 1);
      CharFound(s, k, rest);
      r := WithChar(s[k], rest);
    }
  }

  lemma ClosedFits(s: string, k: nat, body: Comment)
    requires Found(s, k, Closed(body))
    ensures k + |CommentText(body)| + 2 <= |s|
  {
  }

  /** The block comment the scan passes at `j`. */
  lemma BlockFound(s: string, j: nat) returns (p: Piece)
    requires At(s, j, "/*")
    ensures At(s, j, PieceText(p)) && CommentEnd(s, j, 0) == j + |PieceText(p)| <= |s|
    ensures (p.Block? && Quiet(p.body, "*/"))
            || (p.Unclosed? && p.levels != [] && QuietLevels(p.levels) && CommentEnd(s, j, 0) == |s|)
  {
    hide At, CommentEnd, CommentText, Quiet;
    FitsWhereAt(s, j, "/*");
    var r := InsideFound(s, j + 2);
    match r
    case Closed(body) =>
      p := Block(body);
      AtParts(s, j, "/*", CommentText(body) + "*/");
      assert PieceText(p) == "/*" + (CommentText(body) + "*/");
      BlockSkipped(s, j, body);
      FitsWhereAt(s, j, PieceText(p));
    case Open(levels) =>
      p := Unclosed(levels);
      OpenFound(s, j, levels);
      hide OpenText;
      UnclosedSkipped(s, j, levels, 0);
  }

  // --- The piece that stands at an index -------------------------------------------------------

  /** Where something opens, the scan finds it or fails. */
  lemma OpeningIsFound(py: Python, s: string, j: nat)
    requires j < |s| && SkipToken(py, s, j) == Success(None)
    ensures !Opens(py, Before(s, j), s[j..])
  {
    hide At, CharText, Fine, RawOpen, CommentEnd, LineEndFrom, LiteralEnd;
    var t := s[j..];
    AtRest(s, j, "//");
    AtRest(s, j, "/*");
    AtRest(s, j, "\"");
    AtOne(s, j, '"');
    assert ['"'] == "\"";
    PrefixedRest(s, j);
    if s[j] == '"' || (LiteralMayStart(py, s, j) && j + 1 < |s| && (s[j] == 'b' || s[j] == 'c') && s[j + 1] == '"') {
      QuoteIsFound(py, s, j);
    }
    forall byte, b | Fine(b) && At(t, 0, CharText(byte, b)) ensures byte && AfterWord(py, Before(s, j)) {
      AtRest(s, j, CharText(byte, b));
      CharIsFound(py, s, j, byte, b);
    }
    forall p, h: nat | |Mark(p)| + h + 2 <= WINDOW && At(t, 0, RawOpen(p, h)) ensures AfterWord(py, Before(s, j)) {
      AtRest(s, j, RawOpen(p, h));
      RawIsFound(py, s, j, p, h);
    }
  }

  lemma QuoteIsFound(py: Python, s: string, j: nat)
    requires j < |s| && (s[j] == '"' || (j + 1 < |s| && (s[j] == 'b' || s[j] == 'c') && s[j + 1] == '"'))
    ensures LiteralEnd(py, s, j) != Success(None)
  {
    hide ReadString, RawOpening, Find;
    NotRaw(s, j);
  }

  lemma CharIsFound(py: Python, s: string, j: nat, byte: bool, b: CharBody)
    requires j < |s| && Fine(b) && At(s, j, CharText(byte, b)) && SkipToken(py, s, j) == Success(None)
    ensures byte && AfterWord(py, Before(s, j))
  {
    hide At, CharText, Fine, LiteralEnd, CommentEnd, LineEndFrom;
    CharSkipped(py, s, j, byte, b);
  }

  lemma RawIsFound(py: Python, s: string, j: nat, p: Prefix, h: nat)
    requires j < |s| && |Mark(p)| + h + 2 <= WINDOW && At(s, j, RawOpen(p, h)) && SkipToken(py, s, j) == Success(None)
    ensures AfterWord(py, Before(s, j))
  {
    RawOpens(s, j, p, h);
    hide At, RawOpen, RawOpening, CommentEnd, LineEndFrom, Find, ReadString;
  }

  /** What the scan passes in one step from `j` to `next`. */
  ghost predicate Stands(py: Python, s: string, j: nat, p: Piece, next: nat) {
    && j < next <= |s| && At(s, j, PieceText(p)) && next == j + |PieceText(p)|
    && match p
       case Code(c) => !Opens(py, Before(s, j), s[j..])
       case Line(text) => '\n' !in text && (next == |s| || s[next] == '\n')
       case Block(body) => Quiet(body, "*/")
       case Unclosed(levels) => levels != [] && QuietLevels(levels) && next == |s|
       case _ => Placed(py, Before(s, j), p, [])
  }

  lemma LineFound(py: Python, s: string, j: nat) returns (p: Piece)
    requires At(s, j, "//") && j < |s|
    ensures Stands(py, s, j, p, LineEndFrom(s, j))
  {
    FitsWhereAt(s, j, "//");
    AtChar(s, j, "//", 0);
    AtChar(s, j, "//", 1);
    var k := LineEndFrom(s, j);
    forall i | j <= i < k ensures s[i] != '\n' {
      AtOne(s, i, '\n');
    }
    if k < |s| {
      AtOne(s, k, '\n');
    }
    assert k >= j + 2;
    var text := s[j + 2..k];
    AtParts(s, j, "//", text);
    p := Line(text);
  }

  /** A literal's end, found: the literal. */
  lemma LiteralFound(py: Python, s: string, j: nat, next: nat) returns (p: Piece)
    requires NoneFromNothing(py) && j < |s| && LiteralMayStart(py, s, j)
    requires LiteralEnd(py, s, j) == Success(Some(next))
    ensures Stands(py, s, j, p, next)
  {
    hide At, Find, ReadString, RawOpening, CharToken, Quoted, Raw, CharText, Hashes, Encloses, Fine, Laid, AllTaken;
    if RawOpening(s, j).Some? {
      p := RawStands(py, s, j, next);
    } else if s[j] == '"' || ((s[j] == 'b' || s[j] == 'c') && j + 1 < |s| && s[j + 1] == '"') {
      p := StrStands(py, s, j, next);
    } else {
      var b := CharMeans(s, j);
      CharReads(s, j, s[j] == 'b', b);
      p := Char(s[j] == 'b', b);
    }
  }

  lemma RawStands(py: Python, s: string, j: nat, next: nat) returns (p: Piece)
    requires j < |s| && LiteralMayStart(py, s, j) && RawOpening(s, j).Some?
             && LiteralEnd(py, s, j) == Success(Some(next))
    ensures Stands(py, s, j, p, next)
  {
    hide At, Find, RawOpening, Hashes, Encloses, Raw;
    var o := RawOpening(s, j).value;
    var prefix, hashes, raw := RawFound(s, j, Find(s, "\"" + Hashes(o.hashes), j + o.length).value);
    var q, h := RawMeans(s, j);
    p := RawStr(prefix, hashes, raw);
  }

  lemma PrefixBefore(s: string, j: nat, p: Prefix, bare: Prefix, items: seq<Item>)
    requires At(s, j, Mark(p)) && At(s, j + |Mark(p)|, Quoted(bare, items))
    requires j + |Mark(p)| < |s| && s[j + |Mark(p)|] == '"'
    ensures bare == Bare && At(s, j, Quoted(p, items)) && |Quoted(p, items)| == |Mark(p)| + |Quoted(bare, items)|
  {
    hide At, Follows;
    AtChar(s, j + |Mark(p)|, Quoted(bare, items), 0);
    AtParts(s, j, Mark(p), Quoted(Bare, items));
    assert Quoted(p, items) == Mark(p) + Quoted(Bare, items);
  }

  lemma StrStands(py: Python, s: string, j: nat, next: nat) returns (p: Piece)
    requires NoneFromNothing(py) && j < |s| && LiteralMayStart(py, s, j) && RawOpening(s, j).None?
    requires s[j] == '"' || ((s[j] == 'b' || s[j] == 'c') && j + 1 < |s| && s[j + 1] == '"')
    requires LiteralEnd(py, s, j) == Success(Some(next))
    ensures Stands(py, s, j, p, next)
  {
    hide At, ReadString, RawOpening, Laid, AllTaken, Follows, Quoted;
    var prefix := if s[j] == '"' then Bare else if s[j] == 'b' then B else C;
    var q := j + |Mark(prefix)|;
    NotRaw(s, q);
    var bare, items := QuotedFound(py, s, q);
    LiteralRead(py, s, q, bare, items);
    if prefix == Bare {
      EmptyAt(s, j);
    } else {
      AtOne(s, j, s[j]);
      assert Mark(prefix) == [s[j]];
    }
    PrefixBefore(s, j, prefix, bare, items);
    p := Str(prefix, items);
  }

  lemma CodeFound(py: Python, s: string, j: nat) returns (p: Piece)
    requires j < |s| && SkipToken(py, s, j) == Success(None)
    ensures Stands(py, s, j, p, j + 1)
  {
    hide SkipToken, At, Opens;
    OpeningIsFound(py, s, j);
    AtOne(s, j, s[j]);
    p := Code(s[j]);
  }

  lemma CommentStands(py: Python, s: string, j: nat) returns (p: Piece)
    requires j < |s| && CommentAt(s, j)
    ensures SkipToken(py, s, j).Success? && SkipToken(py, s, j).value.Some?
    ensures Stands(py, s, j, p, SkipToken(py, s, j).value.value)
  {
    hide SkipToken, At, CommentEnd, LineEndFrom, Quiet, QuietLevels;
    if At(s, j, "//") {
      SkipsLine(py, s, j);
      p := LineFound(py, s, j);
    } else {
      SkipsBlock(py, s, j);
      p := BlockFound(s, j);
    }
  }

  /** One step of the scan passes one piece. */
  lemma PieceFound(py: Python, s: string, j: nat) returns (p: Piece)
    requires NoneFromNothing(py) && j < |s| && SkipToken(py, s, j).Success?
    ensures Stands(py, s, j, p, Past(j, SkipToken(py, s, j).value))
  {
    hide Stands, LiteralEnd, CommentEnd, LineEndFrom, At;
    if SkipToken(py, s, j).value.None? {
      p := CodeFound(py, s, j);
    } else if CommentAt(s, j) {
      p := CommentStands(py, s, j);
    } else {
      NotACommentIsALiteral(py, s, j);
      p := LiteralFound(py, s, j, SkipToken(py, s, j).value.value);
    }
  }

  // --- And all of them ---------------------------------------------------------------------------

  /** No piece but a code character starts with a line feed. */
  lemma StartsTheLine(py: Python, prev: Option<char>, ps: seq<Piece>)
    requires ps != [] && Placed(py, prev, ps[0], ps[1..]) && Render(ps) != "" && Render(ps)[0] == '\n'
    ensures ps[0] == Code('\n')
  {
    hide Opens, Body, CommentText, Inside, Laid, AllTaken, Encloses, QuietLevels, Quiet;
    var t := PieceText(ps[0]);
    assert Render(ps) == t + Render(ps[1..]);
    if ps[0].RawStr? {
      RawEnds(ps[0].prefix, ps[0].hashes, ps[0].raw);
    }
    hide Raw;
    assert t != "" && t[0] == '\n';
  }

  /** A piece and what was found behind it. */
  lemma StandsPlaced(py: Python, s: string, j: nat, p: Piece, next: nat, rest: seq<Piece>)
    requires Stands(py, s, j, p, next) && Render(rest) == s[next..] && WellPlaced(py, Before(s, next), rest)
    requires next == |s| ==> rest == []
    ensures Render([p] + rest) == s[j..] && WellPlaced(py, Before(s, j), [p] + rest)
  {
    hide At, Opens, PieceText, Laid, AllTaken, Encloses, Fine, Quiet, QuietLevels;
    SliceAt(s, j, PieceText(p));
    var ps := [p] + rest;
    assert ps[1..] == rest;
    assert s[j..] == s[j..next] + s[next..];
    assert Render(ps) == s[j..];
    TextIsThere(s, j, PieceText(p), Render(rest));
    assert PieceText(p) != "";
    if p.Line? && next < |s| {
      assert Render(rest)[0] == s[next];
      assert rest != [];
      hide Placed;
      StartsTheLine(py, Before(s, next), rest);
    }
    CodeText(p);
    assert Placed(py, Before(s, j), p, rest);
  }

  lemma CodeText(p: Piece)
    ensures p.Code? ==> PieceText(p) == [p.c]
  {
  }

  lemma StepSucceeds(py: Python, s: string, j: nat)
    requires j < |s| && BlankFrom(py, s, j).Success?
    ensures SkipToken(py, s, j).Success? && BlankFrom(py, s, Past(j, SkipToken(py, s, j).value)).Success?
  {
  }

  /** What the scan gets through from `j` on is made of well-placed pieces. */
  lemma {:induction false} PiecesFound(py: Python, s: string, j: nat) returns (ps: seq<Piece>)
    requires NoneFromNothing(py) && j <= |s| && BlankFrom(py, s, j).Success?
    ensures Render(ps) == s[j..] && WellPlaced(py, Before(s, j), ps) && (j == |s| ==> ps == [])
    decreases |s| - j
  {
    hide BlankFrom, SkipToken, Stands, Placed, PieceText, Before;
    if j == |s| {
      ps := [];
    } else {
      StepSucceeds(py, s, j);
      var next := Past(j, SkipToken(py, s, j).value);
      var p := PieceFound(py, s, j);
      var rest := PiecesFound(py, s, next);
      StandsPlaced(py, s, j, p, next, rest);
      ps := [p] + rest;
    }
  }

  /** The file as pieces. */
  ghost predicate MadeOf(py: Python, s: string, ps: seq<Piece>) { WellPlaced(py, None, ps) && Render(ps) == s }

  /**
   The scan gets through a file exactly if the file is made of well-placed pieces, and
   then blanks it piece for piece, whichever pieces those are.
   */
  lemma BlanksExactly(py: Python, s: string)
    requires NoneFromNothing(py)
    ensures BlankFrom(py, s, 0).Success? <==> exists ps :: MadeOf(py, s, ps)
    ensures forall ps | MadeOf(py, s, ps) :: BlankFrom(py, s, 0) == Success(BlankRender(ps))
  {
    hide BlankFrom, WellPlaced, Render, BlankRender;
    forall ps | MadeOf(py, s, ps) ensures BlankFrom(py, s, 0) == Success(BlankRender(ps)) {
      BlankExact(py, ps);
    }
    if BlankFrom(py, s, 0).Success? {
      var ps := PiecesFound(py, s, 0);
      assert s[0..] == s;
      assert MadeOf(py, s, ps);
    }
  }
}
