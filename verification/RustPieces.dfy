/**
 A Rust file as the pieces it is made of - code characters, comments, literals -
 and what blanking makes of it. The pieces say nothing of how the script scans.
 */
module RustPieces {
  import opened PyText
  import opened RustLiterals
  import opened RustTokens
  import opened Wrappers

  // --- Pieces -------------------------------------------------------------------------

  /** The inside of a block comment, or of one nested in it. */
  datatype Comment =
    | Done
    | Text(c: char, rest: Comment)
    | Nested(inner: Comment, rest: Comment)

  datatype CharBody = Lone(c: char) | Esc(c: char) | HexChar(hi: char, lo: char) | UniChar(digits: string)

  /** `Unclosed`: a block comment the file ends in, level by level. */
  datatype Piece =
    | Code(c: char)
    | Line(text: string)
    | Block(body: Comment)
    | Unclosed(levels: seq<Comment>)
    | Str(prefix: Prefix, items: seq<Item>)
    | RawStr(prefix: Prefix, hashes: nat, raw: string)
    | Char(byte: bool, shape: CharBody)

  function CommentText(c: Comment): string {
    match c
    case Done => ""
    case Text(ch, rest) => [ch] + CommentText(rest)
    case Nested(inner, rest) => "/*" + CommentText(inner) + "*/" + CommentText(rest)
  }

  function OpenText(levels: seq<Comment>): string {
    if levels == [] then "" else "/*" + CommentText(levels[0]) + OpenText(levels[1..])
  }

  function Inside(b: CharBody): string {
    match b
    case Lone(c) => [c]
    case Esc(c) => ['\\', c]
    case HexChar(hi, lo) => ['\\', 'x', hi, lo]
    case UniChar(digits) => "\\u{" + digits + "}"
  }

  function CharText(byte: bool, b: CharBody): string {
    (if byte then "b'" else "'") + Inside(b) + "'"
  }

  function RawOpen(p: Prefix, hashes: nat): string { Mark(p) + "r" + Hashes(hashes) + "\"" }

  function PieceText(p: Piece): string {
    match p
    case Code(c) => [c]
    case Line(text) => "//" + text
    case Block(body) => "/*" + CommentText(body) + "*/"
    case Unclosed(levels) => OpenText(levels)
    case Str(prefix, items) => Quoted(prefix, items)
    case RawStr(prefix, hashes, raw) => Raw(prefix, hashes, raw)
    case Char(byte, body) => CharText(byte, body)
  }

  function Render(ps: seq<Piece>): string {
    if ps == [] then "" else PieceText(ps[0]) + Render(ps[1..])
  }

  // --- Where a piece may stand -----------------------------------------------------------

  /** No character of the comment makes an opening or a closing with the next one. */
  predicate Quiet(c: Comment, follow: string) {
    match c
    case Done => true
    case Text(ch, rest) =>
      var t := CommentText(rest) + follow;
      && (t != "" ==> !(ch == '/' && t[0] == '*') && !(ch == '*' && t[0] == '/'))
      && Quiet(rest, follow)
    case Nested(inner, rest) => Quiet(inner, "*/") && Quiet(rest, follow)
  }

  predicate QuietLevels(levels: seq<Comment>) {
    levels != [] ==> Quiet(levels[0], OpenText(levels[1..])) && QuietLevels(levels[1..])
  }

  predicate Fine(b: CharBody) {
    match b
    case Lone(c) => c != '\'' && c != '\\' && c != '\n'
    case Esc(c) => c != '\n'
    case HexChar(hi, lo) => HexDigit(hi) && HexDigit(lo)
    case UniChar(digits) => 1 <= |digits| <= 6 && HexDigits(digits)
  }

  predicate AfterWord(py: Python, prev: Option<char>) { prev.Some? && Wordy(py, prev.value) }

  /** A comment or a literal starts at the head of `t`, the character before it being `prev`. */
  ghost predicate Opens(py: Python, prev: Option<char>, t: string) {
    || At(t, 0, "//") || At(t, 0, "/*") || At(t, 0, "\"")
    || (exists b :: Fine(b) && At(t, 0, CharText(false, b)))
    || (!AfterWord(py, prev)
        && (At(t, 0, "b\"") || At(t, 0, "c\"")
            || (exists p, h: nat :: |Mark(p)| + h + 2 <= WINDOW && At(t, 0, RawOpen(p, h)))
            || (exists b :: Fine(b) && At(t, 0, CharText(true, b)))))
  }

  /** A line comment runs to its line's end; a prefix is not the end of a word; nothing follows an unclosed comment. */
  ghost predicate Placed(py: Python, prev: Option<char>, p: Piece, rest: seq<Piece>) {
    match p
    case Code(c) => !Opens(py, prev, [c] + Render(rest))
    case Line(text) => '\n' !in text && (rest == [] || rest[0] == Code('\n'))
    case Block(body) => Quiet(body, "*/")
    case Unclosed(levels) => levels != [] && QuietLevels(levels) && rest == []
    case Str(prefix, items) => Laid(items) && AllTaken(py, items) && (prefix != Bare ==> !AfterWord(py, prev))
    case RawStr(prefix, hashes, raw) =>
      Encloses(hashes, raw) && |Mark(prefix)| + hashes + 2 <= WINDOW && !AfterWord(py, prev)
    case Char(byte, body) => Fine(body) && (byte ==> !AfterWord(py, prev))
  }

  function LastOf(t: string): Option<char> { if t == "" then None else Some(t[|t| - 1]) }

  ghost predicate WellPlaced(py: Python, prev: Option<char>, ps: seq<Piece>)
    decreases |ps|
  {
    ps != [] ==> Placed(py, prev, ps[0], ps[1..]) && WellPlaced(py, LastOf(PieceText(ps[0])), ps[1..])
  }

  // --- What blanking leaves ---------------------------------------------------------------

  /** Of a literal its first and last character. */
  function Ends(t: string): string
    requires |t| >= 2
  {
    [t[0]] + Spaces(t[1..|t| - 1]) + [t[|t| - 1]]
  }

  function BlankPiece(p: Piece): string {
    match p
    case Code(c) => [c]
    case Line(_) => Spaces(PieceText(p))
    case Block(_) => Spaces(PieceText(p))
    case Unclosed(_) => Spaces(PieceText(p))
    case Str(_, _) => Ends(PieceText(p))
    case RawStr(_, _, _) => Ends(PieceText(p))
    case Char(_, _) => Ends(PieceText(p))
  }

  function BlankRender(ps: seq<Piece>): string {
    if ps == [] then "" else BlankPiece(ps[0]) + BlankRender(ps[1..])
  }

  // --- The scan finds the pieces ------------------------------------------------------------

  lemma AtTwo(s: string, j: nat, a: char, b: char)
    ensures At(s, j, [a, b]) <==> j + 1 < |s| && s[j] == a && s[j + 1] == b
  {
    if At(s, j, [a, b]) {
      AtChar(s, j, [a, b], 0);
      AtChar(s, j, [a, b], 1);
    }
  }

  lemma TextStep(s: string, k: nat, ch: char, t: string, depth: int)
    requires At(s, k, [ch] + t) && (t == "" ==> k + 1 == |s|)
    requires t != "" ==> !(ch == '/' && t[0] == '*') && !(ch == '*' && t[0] == '/')
    ensures k < |s| && At(s, k + 1, t) && CommentEnd(s, k, depth) == CommentEnd(s, k + 1, depth)
  {
    AtParts(s, k, [ch], t);
    AtOne(s, k, ch);
    if t != "" {
      AtChar(s, k + 1, t, 0);
    }
    AtTwo(s, k, '/', '*');
    AtTwo(s, k, '*', '/');
    assert ['/', '*'] == "/*" && ['*', '/'] == "*/";
  }

  lemma FitsWhereAt(s: string, k: nat, t: string)
    requires At(s, k, t)
    ensures k + |t| <= |s|
  {
  }

  lemma NoMoreText(s: string, depth: int)
    ensures CommentEnd(s, |s|, depth) == |s|
  {
  }

  lemma OpenStep(s: string, k: nat, depth: int)
    requires At(s, k, "/*")
    ensures k + 2 <= |s| && CommentEnd(s, k, depth) == CommentEnd(s, k + 2, depth + 1)
  {
  }

  lemma CloseStep(s: string, k: nat, depth: int)
    requires At(s, k, "*/")
    ensures k + 2 <= |s| && CommentEnd(s, k, depth) == if depth == 1 then k + 2 else CommentEnd(s, k + 2, depth - 1)
  {
    AtTwo(s, k, '*', '/');
    AtTwo(s, k, '/', '*');
    assert ['/', '*'] == "/*" && ['*', '/'] == "*/";
  }

  /** Scanning a comment's text ends where it ends, as deep as it began. */
  lemma {:induction false} CommentWalks(s: string, k: nat, c: Comment, follow: string, depth: int)
    requires depth >= 1 && Quiet(c, follow) && At(s, k, CommentText(c) + follow)
    requires follow == "" ==> k + |CommentText(c)| == |s|
    ensures k + |CommentText(c)| <= |s|
    ensures CommentEnd(s, k, depth) == CommentEnd(s, k + |CommentText(c)|, depth)
    decreases c, 1
  {
    hide CommentEnd, At, Quiet;
    AtParts(s, k, CommentText(c), follow);
    FitsWhereAt(s, k, CommentText(c));
    match c
    case Done =>
    case Text(ch, rest) => WalkText(s, k, ch, rest, follow, depth);
    case Nested(inner, rest) => WalkNested(s, k, inner, rest, follow, depth);
  }

  lemma {:induction false} WalkText(s: string, k: nat, ch: char, rest: Comment, follow: string, depth: int)
    requires depth >= 1 && Quiet(Text(ch, rest), follow) && At(s, k, CommentText(Text(ch, rest)) + follow)
    requires follow == "" ==> k + 1 + |CommentText(rest)| == |s|
    ensures k + 1 + |CommentText(rest)| <= |s|
    ensures CommentEnd(s, k, depth) == CommentEnd(s, k + 1 + |CommentText(rest)|, depth)
    decreases Text(ch, rest), 0
  {
    hide CommentEnd, At;
    var t := CommentText(rest) + follow;
    assert CommentText(Text(ch, rest)) + follow == [ch] + t;
    TextStep(s, k, ch, t, depth);
    CommentWalks(s, k + 1, rest, follow, depth);
  }

  lemma {:induction false} WalkNested(s: string, k: nat, inner: Comment, rest: Comment, follow: string, depth: int)
    requires depth >= 1 && Quiet(Nested(inner, rest), follow) && At(s, k, CommentText(Nested(inner, rest)) + follow)
    requires follow == "" ==> k + |CommentText(Nested(inner, rest))| == |s|
    ensures k + |CommentText(Nested(inner, rest))| <= |s|
    ensures CommentEnd(s, k, depth) == CommentEnd(s, k + |CommentText(Nested(inner, rest))|, depth)
    decreases Nested(inner, rest), 0
  {
    hide CommentEnd, At, CommentText;
    assert Quiet(inner, "*/") && Quiet(rest, follow);
    NestedSplits(s, k, inner, rest, follow);
    var shut := k + 2 + |CommentText(inner)|;
    OpenStep(s, k, depth);
    CommentWalks(s, k + 2, inner, "*/", depth + 1);
    CloseStep(s, shut, depth + 1);
    CommentWalks(s, shut + 2, rest, follow, depth);
  }

  lemma NestedSplits(s: string, k: nat, inner: Comment, rest: Comment, follow: string)
    requires At(s, k, CommentText(Nested(inner, rest)) + follow)
    ensures var shut := k + 2 + |CommentText(inner)|;
            && At(s, k, "/*") && At(s, k + 2, CommentText(inner) + "*/") && At(s, shut, "*/")
            && At(s, shut + 2, CommentText(rest) + follow)
            && |CommentText(Nested(inner, rest))| == 4 + |CommentText(inner)| + |CommentText(rest)|
  {
    var i, r := CommentText(inner), CommentText(rest);
    assert CommentText(Nested(inner, rest)) + follow == "/*" + (i + "*/" + (r + follow));
    AtParts(s, k, "/*", i + "*/" + (r + follow));
    AtParts(s, k + 2, i + "*/", r + follow);
    AtParts(s, k + 2, i, "*/");
  }

  lemma BlockSkipped(s: string, j: nat, body: Comment)
    requires Quiet(body, "*/") && At(s, j, PieceText(Block(body)))
    ensures CommentEnd(s, j, 0) == j + |PieceText(Block(body))| && At(s, j, "/*")
  {
    hide CommentEnd, At, CommentText, Quiet;
    var t := CommentText(body);
    assert PieceText(Block(body)) == "/*" + (t + "*/");
    AtParts(s, j, "/*", t + "*/");
    AtParts(s, j + 2, t, "*/");
    OpenStep(s, j, 0);
    CommentWalks(s, j + 2, body, "*/", 1);
    CloseStep(s, j + 2 + |t|, 1);
  }

  lemma {:induction false} UnclosedSkipped(s: string, j: nat, levels: seq<Comment>, depth: nat)
    requires QuietLevels(levels) && At(s, j, OpenText(levels)) && j + |OpenText(levels)| == |s|
    ensures CommentEnd(s, j, depth) == |s|
    ensures levels != [] ==> At(s, j, "/*")
    decreases |levels|
  {
    hide CommentEnd, At, Quiet, CommentText;
    if levels == [] {
      NoMoreText(s, depth);
    } else {
      var t, rest := CommentText(levels[0]), OpenText(levels[1..]);
      assert OpenText(levels) == "/*" + (t + rest);
      assert Quiet(levels[0], rest) && QuietLevels(levels[1..]);
      hide OpenText, QuietLevels;
      AtParts(s, j, "/*", t + rest);
      AtParts(s, j + 2, t, rest);
      OpenStep(s, j, depth);
      CommentWalks(s, j + 2, levels[0], rest, depth + 1);
      UnclosedSkipped(s, j + 2 + |t|, levels[1..], depth + 1);
    }
  }

  lemma LineSkipped(s: string, j: nat, text: string)
    requires '\n' !in text && At(s, j, "//" + text)
    requires j + 2 + |text| == |s| || s[j + 2 + |text|] == '\n'
    ensures LineEndFrom(s, j) == j + 2 + |text|
  {
    var k := j + 2 + |text|;
    forall i: nat | j <= i < k ensures !At(s, i, "\n") {
      AtChar(s, j, "//" + text, i - j);
      AtOne(s, i, '\n');
    }
    if k < |s| {
      AtOne(s, k, '\n');
      FoundAt(s, "\n", j, k);
    }
  }

  lemma CharReads(s: string, j: nat, byte: bool, b: CharBody)
    requires Fine(b) && At(s, j, CharText(byte, b))
    ensures CharToken(s, j) == Some(j + |CharText(byte, b)|)
  {
    hide CharEscape, At;
    var open := if byte then "b'" else "'";
    var q := j + |open|;
    AtParts(s, j, open + Inside(b), "'");
    AtParts(s, j, open, Inside(b));
    AtChar(s, j, open, 0);
    AtChar(s, j, open, |open| - 1);
    AtChar(s, q + |Inside(b)|, "'", 0);
    AtChar(s, q, Inside(b), 0);
    if !b.Lone? {
      AtChar(s, q, Inside(b), 1);
      EscapeReads(s, q, b);
    }
  }

  lemma EscapeReads(s: string, q: nat, b: CharBody)
    requires Fine(b) && !b.Lone? && At(s, q, Inside(b)) && q + |Inside(b)| < |s| && s[q + |Inside(b)|] == '\''
    ensures CharEscape(s, q) == Some(q + |Inside(b)|)
  {
    match b
    case Esc(c) => EscReads(s, q, c);
    case HexChar(hi, lo) => HexReads(s, q, hi, lo);
    case UniChar(digits) => UniReads(s, q, digits);
  }

  lemma EscReads(s: string, q: nat, c: char)
    requires c != '\n' && At(s, q, ['\\', c]) && q + 2 < |s| && s[q + 2] == '\''
    ensures CharEscape(s, q) == Some(q + 2)
  {
    AtChar(s, q, ['\\', c], 1);
    hide At;
  }

  lemma HexReads(s: string, q: nat, hi: char, lo: char)
    requires HexDigit(hi) && HexDigit(lo) && At(s, q, ['\\', 'x', hi, lo]) && q + 4 < |s| && s[q + 4] == '\''
    ensures CharEscape(s, q) == Some(q + 4)
  {
    AtChar(s, q, ['\\', 'x', hi, lo], 1);
    AtChar(s, q, ['\\', 'x', hi, lo], 2);
    AtChar(s, q, ['\\', 'x', hi, lo], 3);
    hide At;
  }

  lemma UniReads(s: string, q: nat, digits: string)
    requires 1 <= |digits| <= 6 && HexDigits(digits) && At(s, q, "\\u{" + digits + "}")
    requires q + 4 + |digits| < |s| && s[q + 4 + |digits|] == '\''
    ensures CharEscape(s, q) == Some(q + 4 + |digits|)
  {
    var h := |digits|;
    AtParts(s, q, "\\u{" + digits, "}");
    AtParts(s, q, "\\u{", digits);
    AtChar(s, q, "\\u{", 1);
    AtChar(s, q, "\\u{", 2);
    AtChar(s, q + 3 + h, "}", 0);
    forall k | q + 3 <= k < q + 3 + h ensures HexDigit(s[k]) {
      AtChar(s, q + 3, digits, k - q - 3);
    }
    hide At;
    DigitsCounted(s, q + 3, h);
  }

  lemma DigitsCounted(s: string, j: nat, h: nat)
    requires h <= 6 && j + h < |s| && !HexDigit(s[j + h]) && forall k :: j <= k < j + h ==> HexDigit(s[k])
    ensures CountHex(s, j, 6) == h
  {
  }

  lemma CharAssembled(s: string, j: nat, byte: bool, b: CharBody)
    requires At(s, j, if byte then "b'" else "'")
    requires var q := if byte then j + 2 else j + 1;
             At(s, q, Inside(b)) && At(s, q + |Inside(b)|, "'")
    ensures At(s, j, CharText(byte, b))
  {
    hide At, Inside;
    AtParts(s, j, if byte then "b'" else "'", Inside(b));
    AtParts(s, j, (if byte then "b'" else "'") + Inside(b), "'");
  }

  /** Whatever the pattern takes is a char literal. */
  lemma CharMeans(s: string, j: nat) returns (b: CharBody)
    requires j < |s| && CharToken(s, j).Some?
    ensures Fine(b) && At(s, j, CharText(s[j] == 'b', b))
  {
    hide At, CharEscape;
    var byte := s[j] == 'b';
    var q := if byte then j + 2 else j + 1;
    AtTwo(s, j, 'b', '\'');
    AtOne(s, j, '\'');
    assert ['b', '\''] == "b'" && ['\''] == "'";
    if s[q] != '\\' {
      b := Lone(s[q]);
      AtOne(s, q, s[q]);
      AtOne(s, q + 1, '\'');
    } else {
      b := EscapeMeaning(s, q);
      AtOne(s, q + |Inside(b)|, '\'');
    }
    hide CharToken, Inside, CharText, Fine;
    CharAssembled(s, j, byte, b);
  }

  lemma EscapeMeaning(s: string, q: nat) returns (b: CharBody)
    requires q < |s| && s[q] == '\\' && CharEscape(s, q).Some?
    ensures Fine(b) && At(s, q, Inside(b)) && CharEscape(s, q) == Some(q + |Inside(b)|)
    ensures q + |Inside(b)| < |s| && s[q + |Inside(b)|] == '\''
  {
    var end := CharEscape(s, q).value;
    AtOne(s, end, '\'');
    assert ['\''] == "'";
    if q + 4 < |s| && s[q + 1] == 'x' && HexDigit(s[q + 2]) && HexDigit(s[q + 3]) && s[q + 4] == '\'' {
      b := HexChar(s[q + 2], s[q + 3]);
    } else if end == q + 2 {
      b := Esc(s[q + 1]);
    } else {
      b := UnicodeMeaning(s, q, end - q - 4);
    }
  }

  lemma UnicodeMeaning(s: string, q: nat, h: nat) returns (b: CharBody)
    requires 1 <= h <= 6 && q + 3 + h < |s| && s[q] == '\\' && s[q + 1] == 'u' && s[q + 2] == '{' && s[q + 3 + h] == '}'
    requires forall k :: q + 3 <= k < q + 3 + h ==> HexDigit(s[k])
    ensures Fine(b) && At(s, q, Inside(b)) && |Inside(b)| == h + 4
  {
    var digits := s[q + 3..q + 3 + h];
    b := UniChar(digits);
    AtOne(s, q + 3 + h, '}');
    assert At(s, q, "\\u{") && At(s, q + 3, digits);
    assert HexDigits(digits);
    hide At;
    AtParts(s, q, "\\u{", digits);
    AtParts(s, q, "\\u{" + digits, "}");
  }

  lemma RawAssembled(s: string, j: nat, p: Prefix, h: nat)
    requires At(s, j, Mark(p)) && At(s, j + |Mark(p)|, "r")
    requires At(s, j + |Mark(p)| + 1, Hashes(h)) && At(s, j + |Mark(p)| + 1 + h, "\"")
    ensures At(s, j, RawOpen(p, h))
  {
    hide At, Hashes, Mark;
    AtParts(s, j, Mark(p), "r");
    AtParts(s, j, Mark(p) + "r", Hashes(h));
    AtParts(s, j, Mark(p) + "r" + Hashes(h), "\"");
  }

  lemma WindowChars(s: string, j: nat)
    ensures var w := Slice(s, j, j + WINDOW);
            w == "" || (j + |w| <= |s| && |w| <= WINDOW && forall k :: 0 <= k < |w| ==> w[k] == s[j + k])
  {
  }

  lemma RawShape(s: string, j: nat) returns (m: nat, h: nat)
    requires RawOpening(s, j).Some?
    ensures m <= 1 && m + h + 2 <= WINDOW && j + m + 1 + h < |s|
    ensures m == 1 ==> s[j] == 'b' || s[j] == 'c'
    ensures s[j + m] == 'r' && s[j + m + 1 + h] == '"' && forall k :: j + m < k <= j + m + h ==> s[k] == '#'
  {
    hide CountHashes, Slice;
    var w := Slice(s, j, j + WINDOW);
    WindowChars(s, j);
    m := if w[0] == 'b' || w[0] == 'c' then 1 else 0;
    h := CountHashes(w, m + 1);
    assert w[m] == 'r' && m + 1 + h < |w| && w[m + 1 + h] == '"';
    hide RawOpening;
    forall k | j + m < k <= j + m + h ensures s[k] == '#' {
      assert w[k - j] == s[j + (k - j)];
    }
  }

  /** Whatever is taken for a raw opening is one. */
  lemma RawMeans(s: string, j: nat) returns (p: Prefix, h: nat)
    requires RawOpening(s, j).Some?
    ensures |Mark(p)| + h + 2 <= WINDOW && At(s, j, RawOpen(p, h))
    ensures j + 1 < |s| && (s[j] == 'r' || ((s[j] == 'b' || s[j] == 'c') && s[j + 1] == 'r'))
  {
    hide At, Hashes, RawOpen, RawOpening, Mark;
    var m;
    m, h := RawShape(s, j);
    p := MarkAt(s, j, m);
    AtOne(s, j + m, 'r');
    AtOne(s, j + m + 1 + h, '"');
    HashesAt(s, j + m + 1, h);
    RawAssembled(s, j, p, h);
  }

  lemma MarkAt(s: string, j: nat, m: nat) returns (p: Prefix)
    requires j < |s| && m <= 1 && (m == 1 ==> s[j] == 'b' || s[j] == 'c')
    ensures At(s, j, Mark(p)) && |Mark(p)| == m
  {
    hide At;
    p := if m == 0 then Bare else if s[j] == 'b' then B else C;
    if p == Bare {
      EmptyAt(s, j);
    } else {
      AtOne(s, j, s[j]);
      assert Mark(p) == [s[j]];
    }
  }

  lemma HashesAt(s: string, j: nat, h: nat)
    requires j + h <= |s| && forall k :: j <= k < j + h ==> s[k] == '#'
    ensures At(s, j, Hashes(h))
  {
  }

  lemma EmptyAt(s: string, j: nat)
    requires j <= |s|
    ensures At(s, j, "")
  {
  }

  function Before(s: string, j: nat): Option<char>
    requires j <= |s|
  {
    if j > 0 then Some(s[j - 1]) else None
  }

  /** Standing at `j` is standing at the head of what is left. */
  lemma AtRest(s: string, j: nat, t: string)
    requires j <= |s|
    ensures At(s, j, t) <==> At(s[j..], 0, t)
  {
    AtShift(s[..j], s[j..], 0, t);
    assert s == s[..j] + s[j..];
  }

  /** Where nothing opens, the scan finds nothing. */
  lemma NothingSkipped(py: Python, s: string, j: nat)
    requires j < |s| && !Opens(py, Before(s, j), s[j..])
    ensures SkipToken(py, s, j) == Success(None)
  {
    hide At, RawOpening, CharToken, ReadString, Find, RawOpen, CharText, Fine, CommentEnd;
    var t := s[j..];
    AtRest(s, j, "//");
    AtRest(s, j, "/*");
    AtRest(s, j, "\"");
    AtOne(s, j, '"');
    if LiteralMayStart(py, s, j) {
      if RawOpening(s, j).Some? {
        var p, h := RawMeans(s, j);
        AtRest(s, j, RawOpen(p, h));
      } else {
        PrefixedRest(s, j);
        if CharToken(s, j).Some? {
          var b := CharMeans(s, j);
          AtRest(s, j, CharText(s[j] == 'b', b));
        }
      }
    }
  }

  lemma PrefixedRest(s: string, j: nat)
    requires j < |s|
    ensures At(s[j..], 0, "b\"") <==> j + 1 < |s| && s[j] == 'b' && s[j + 1] == '"'
    ensures At(s[j..], 0, "c\"") <==> j + 1 < |s| && s[j] == 'c' && s[j + 1] == '"'
  {
    AtRest(s, j, "b\"");
    AtRest(s, j, "c\"");
    AtTwo(s, j, 'b', '"');
    AtTwo(s, j, 'c', '"');
    assert ['b', '"'] == "b\"" && ['c', '"'] == "c\"";
  }

  lemma StrSkipped(py: Python, s: string, j: nat, p: Prefix, items: seq<Item>)
    requires Laid(items) && AllTaken(py, items) && At(s, j, Quoted(p, items)) && j < |s|
    ensures LiteralEnd(py, s, j) == Success(Some(j + |Quoted(p, items)|))
    ensures s[j] == if p == Bare then '"' else Mark(p)[0]
  {
    hide ReadString, Find, RawOpening, At, Body;
    AtParts(s, j, Mark(p) + "\"", Follows(items));
    AtParts(s, j, Mark(p), "\"");
    AtChar(s, j + |Mark(p)|, "\"", 0);
    if p != Bare {
      AtChar(s, j, Mark(p), 0);
    }
    NotRaw(s, j);
    var q := j + |Mark(p)|;
    assert Quoted(Bare, items) == "\"" + Follows(items);
    AtParts(s, q, "\"", Follows(items));
    LiteralRead(py, s, q, Bare, items);
  }

  lemma RawSkipped(py: Python, s: string, j: nat, p: Prefix, hashes: nat, raw: string)
    requires Encloses(hashes, raw) && |Mark(p)| + hashes + 2 <= WINDOW && At(s, j, Raw(p, hashes, raw)) && j < |s|
    ensures LiteralEnd(py, s, j) == Success(Some(j + |Raw(p, hashes, raw)|))
    ensures s[j] == if p == Bare then 'r' else Mark(p)[0]
  {
    hide ReadString, Find, RawOpening, Hashes, Encloses;
    RawSplits(s, j, p, hashes, raw);
    RawOpens(s, j, p, hashes);
    CloseFound(s, j + |Mark(p)| + 2 + hashes, hashes, raw);
    AtParts(s, j, Mark(p) + "r" + Hashes(hashes), "\"");
    AtParts(s, j, Mark(p) + "r", Hashes(hashes));
    AtParts(s, j, Mark(p), "r");
    if p != Bare {
      AtChar(s, j, Mark(p), 0);
    }
  }

  lemma CharSkipped(py: Python, s: string, j: nat, byte: bool, b: CharBody)
    requires Fine(b) && At(s, j, CharText(byte, b)) && j < |s|
    ensures LiteralEnd(py, s, j) == Success(Some(j + |CharText(byte, b)|))
    ensures s[j] == if byte then 'b' else '\''
  {
    hide ReadString, Find, RawOpening, Inside, Fine, CharToken;
    CharReads(s, j, byte, b);
    AtChar(s, j, CharText(byte, b), 0);
    if byte {
      AtChar(s, j, CharText(byte, b), 1);
    }
    QuoteIsNotRaw(s, j);
  }

  lemma QuoteIsNotRaw(s: string, j: nat)
    requires j + 1 < |s| && (s[j] == '\'' || (s[j] == 'b' && s[j + 1] == '\''))
    ensures RawOpening(s, j).None?
  {
  }

  // --- Blanking is structure-exact ------------------------------------------------------------

  predicate IsComment(p: Piece) { p.Line? || p.Block? || p.Unclosed? }

  lemma TextIsThere(s: string, j: nat, t: string, rest: string)
    requires j <= |s| && s[j..] == t + rest
    ensures At(s, j, t) && j + |t| <= |s| && s[j + |t|..] == rest && s[j..j + |t|] == t
    ensures t != "" ==> Before(s, j + |t|) == LastOf(t)
  {
    AtRest(s, j, t);
    AtRest(s, j, t + rest);
    AtParts(s, j, t, rest);
    assert s[j + |t|..] == s[j..][|t|..];
    assert s[j..j + |t|] == s[j..][..|t|];
    if t != "" {
      AtChar(s, j, t, |t| - 1);
    }
  }

  lemma SkipsLine(py: Python, s: string, j: nat)
    requires At(s, j, "//") && j < |s|
    ensures SkipToken(py, s, j) == Success(Some(LineEndFrom(s, j)))
  {
    hide LineEndFrom, At;
  }

  lemma SkipsBlock(py: Python, s: string, j: nat)
    requires At(s, j, "/*") && j < |s|
    ensures SkipToken(py, s, j) == Success(Some(CommentEnd(s, j, 0)))
  {
    hide CommentEnd, At;
    StarIsNotSlash(s, j);
  }

  lemma LineIsSkipped(py: Python, s: string, j: nat, text: string, rest: seq<Piece>)
    requires j <= |s| && s[j..] == "//" + text + Render(rest) && Placed(py, None, Line(text), rest)
    ensures j < |s| && CommentAt(s, j) && SkipToken(py, s, j) == Success(Some(j + 2 + |text|))
  {
    hide LineEndFrom, SkipToken;
    var k := j + 2 + |text|;
    TextIsThere(s, j, "//" + text, Render(rest));
    if rest != [] {
      assert Render(rest) == "\n" + Render(rest[1..]);
      assert s[k] == s[k..][0];
    } else {
      assert s[k..] == "";
    }
    LineSkipped(s, j, text);
    AtParts(s, j, "//", text);
    SkipsLine(py, s, j);
  }

  lemma BlockIsSkipped(py: Python, s: string, j: nat, p: Piece, rest: string)
    requires j <= |s| && s[j..] == PieceText(p) + rest
    requires (p.Block? && Quiet(p.body, "*/")) || (p.Unclosed? && p.levels != [] && QuietLevels(p.levels) && rest == "")
    ensures j < |s| && CommentAt(s, j) && SkipToken(py, s, j) == Success(Some(j + |PieceText(p)|))
  {
    hide CommentEnd, SkipToken, At, Quiet, QuietLevels, CommentText, OpenText;
    TextIsThere(s, j, PieceText(p), rest);
    if p.Block? {
      BlockSkipped(s, j, p.body);
    } else {
      assert |s[j + |PieceText(p)|..]| == 0;
      UnclosedSkipped(s, j, p.levels, 0);
    }
    FitsWhereAt(s, j, "/*");
    SkipsBlock(py, s, j);
  }

  lemma CommentSkipped(py: Python, s: string, j: nat, p: Piece, rest: seq<Piece>)
    requires j <= |s| && s[j..] == PieceText(p) + Render(rest) && IsComment(p) && Placed(py, Before(s, j), p, rest)
    ensures j < |s| && CommentAt(s, j) && SkipToken(py, s, j) == Success(Some(j + |PieceText(p)|))
  {
    hide SkipToken, At, Quiet, QuietLevels, CommentText, OpenText, CommentAt;
    if p.Line? {
      LineIsSkipped(py, s, j, p.text, rest);
    } else {
      BlockIsSkipped(py, s, j, p, Render(rest));
    }
  }

  lemma StarIsNotSlash(s: string, j: nat)
    requires At(s, j, "/*")
    ensures !At(s, j, "//") && j + 2 <= |s|
  {
    AtTwo(s, j, '/', '*');
    AtTwo(s, j, '/', '/');
    assert ['/', '*'] == "/*" && ['/', '/'] == "//";
  }

  lemma NoComment(s: string, j: nat)
    requires j < |s| && s[j] != '/'
    ensures !CommentAt(s, j)
  {
    AtTwo(s, j, '/', '*');
    AtTwo(s, j, '/', '/');
    assert ['/', '*'] == "/*" && ['/', '/'] == "//";
  }

  lemma LiteralSkipped(py: Python, s: string, j: nat, p: Piece, rest: seq<Piece>)
    requires j <= |s| && s[j..] == PieceText(p) + Render(rest)
    requires !IsComment(p) && !p.Code? && Placed(py, Before(s, j), p, rest)
    ensures j < |s| && !CommentAt(s, j) && SkipToken(py, s, j) == Success(Some(j + |PieceText(p)|))
            && |PieceText(p)| >= 2
  {
    hide LiteralEnd, At, CommentAt, CommentEnd, LineEndFrom, Laid, AllTaken, Encloses, Fine, Body, Hashes, Inside;
    TextIsThere(s, j, PieceText(p), Render(rest));
    assert PieceText(p) != "";
    match p {
      case Str(prefix, items) => StrSkipped(py, s, j, prefix, items);
      case RawStr(prefix, hashes, raw) => RawSkipped(py, s, j, prefix, hashes, raw);
      case Char(byte, body) => CharSkipped(py, s, j, byte, body);
    }
    assert s[j] == '"' || s[j] == '\'' || s[j] == 'b' || s[j] == 'r' || s[j] == 'c';
    NoComment(s, j);
    NotACommentIsALiteral(py, s, j);
  }

  lemma NotACommentIsALiteral(py: Python, s: string, j: nat)
    requires j < |s| && !CommentAt(s, j) && LiteralMayStart(py, s, j)
    ensures SkipToken(py, s, j) == LiteralEnd(py, s, j)
  {
    hide LiteralEnd, At, CommentEnd, LineEndFrom;
  }

  lemma CodeBlanked(py: Python, s: string, j: nat, c: char, rest: string)
    requires j < |s| && s[j..] == [c] + rest && !Opens(py, Before(s, j), [c] + rest)
    ensures BlankFrom(py, s, j) == After([c], BlankFrom(py, s, j + 1))
  {
    hide SkipToken, Opens, BlankFrom, After;
    NothingSkipped(py, s, j);
    OneTurn(py, s, j, None);
    assert s[j] == s[j..][0];
  }

  lemma CommentBlanked(py: Python, s: string, j: nat, t: string, rest: string)
    requires t != "" && j < |s| && s[j..] == t + rest && CommentAt(s, j)
             && SkipToken(py, s, j) == Success(Some(j + |t|))
    ensures BlankFrom(py, s, j) == After(Spaces(t), BlankFrom(py, s, j + |t|))
  {
    hide SkipToken, CommentAt, BlankFrom, After, Spaces;
    TextIsThere(s, j, t, rest);
    OneTurn(py, s, j, Some(j + |t|));
  }

  lemma LiteralBlanked(py: Python, s: string, j: nat, t: string, rest: string)
    requires |t| >= 2 && j < |s| && s[j..] == t + rest && !CommentAt(s, j)
             && SkipToken(py, s, j) == Success(Some(j + |t|))
    ensures BlankFrom(py, s, j) == After(Ends(t), BlankFrom(py, s, j + |t|))
  {
    hide SkipToken, CommentAt, BlankFrom, After, Spaces;
    TextIsThere(s, j, t, rest);
    OneTurn(py, s, j, Some(j + |t|));
    InnerSlice(s, j, j + |t|);
  }

  lemma InnerSlice(s: string, j: nat, k: nat)
    requires j + 2 <= k <= |s|
    ensures s[j..k][1..k - j - 1] == s[j + 1..k - 1] && s[j..k][0] == s[j] && s[j..k][k - j - 1] == s[k - 1]
  {
    var t := s[j..k];
    var u, v := t[1..k - j - 1], s[j + 1..k - 1];
    forall i | 0 <= i < |v| ensures u[i] == v[i] {
    }
    assert u == v;
  }

  /** One piece: the scan passes exactly it, and leaves what `BlankPiece` says. */
  lemma PieceBlanked(py: Python, s: string, j: nat, p: Piece, rest: seq<Piece>)
    requires j <= |s| && s[j..] == PieceText(p) + Render(rest) && Placed(py, Before(s, j), p, rest)
    ensures PieceText(p) != "" && j + |PieceText(p)| <= |s| && s[j + |PieceText(p)|..] == Render(rest)
    ensures BlankFrom(py, s, j) == After(BlankPiece(p), BlankFrom(py, s, j + |PieceText(p)|))
  {
    hide SkipToken, At, CommentAt, Render, Opens, Ends, Spaces, BlankFrom, After;
    var t := PieceText(p);
    TextIsThere(s, j, t, Render(rest));
    if p.Code? {
      CodeBlanked(py, s, j, p.c, Render(rest));
    } else if IsComment(p) {
      hide Placed;
      CommentSkipped(py, s, j, p, rest);
      hide PieceText;
      CommentBlanked(py, s, j, t, Render(rest));
    } else {
      hide Placed;
      LiteralSkipped(py, s, j, p, rest);
      hide PieceText;
      LiteralBlanked(py, s, j, t, Render(rest));
    }
  }

  lemma OneTurn(py: Python, s: string, j: nat, k: Option<nat>)
    requires j < |s| && SkipToken(py, s, j) == Success(k)
    ensures BlankFrom(py, s, j) == After(Head(s, j, k), BlankFrom(py, s, Past(j, k)))
  {
    hide SkipToken, Head, After;
  }

  lemma Assembled(ps: seq<Piece>, rest: Result<string, Error>)
    requires ps != [] && rest == Success(BlankRender(ps[1..]))
    ensures After(BlankPiece(ps[0]), rest) == Success(BlankRender(ps))
  {
  }

  lemma Onward(py: Python, s: string, j: nat, ps: seq<Piece>)
    requires j <= |s| && ps != [] && s[j..] == Render(ps) && WellPlaced(py, Before(s, j), ps)
    ensures var k := j + |PieceText(ps[0])|;
            && k <= |s| && s[k..] == Render(ps[1..]) && WellPlaced(py, Before(s, k), ps[1..])
            && BlankFrom(py, s, j) == After(BlankPiece(ps[0]), BlankFrom(py, s, k))
  {
    hide Placed, BlankPiece, PieceText, BlankFrom, After;
    var t := PieceText(ps[0]);
    assert Render(ps) == t + Render(ps[1..]);
    assert Placed(py, Before(s, j), ps[0], ps[1..]) && WellPlaced(py, LastOf(t), ps[1..]);
    hide WellPlaced, Render;
    PieceBlanked(py, s, j, ps[0], ps[1..]);
    TextIsThere(s, j, t, Render(ps[1..]));
  }

  lemma NoPieces()
    ensures Render([]) == "" && BlankRender([]) == ""
  {
  }

  /** On well-placed pieces the scan ends, and blanks each piece for itself. */
  lemma {:induction false} BlankExactFrom(py: Python, s: string, j: nat, ps: seq<Piece>)
    requires j <= |s| && s[j..] == Render(ps) && WellPlaced(py, Before(s, j), ps)
    ensures BlankFrom(py, s, j) == Success(BlankRender(ps))
    decreases |ps|
  {
    hide BlankFrom, WellPlaced, BlankRender, Render, PieceText, BlankPiece, After, Before;
    if ps == [] {
      NoPieces();
      assert |s[j..]| == 0;
      NothingLeft(py, s);
    } else {
      Onward(py, s, j, ps);
      BlankExactFrom(py, s, j + |PieceText(ps[0])|, ps[1..]);
      Assembled(ps, BlankFrom(py, s, j + |PieceText(ps[0])|));
    }
  }

  lemma BlankExact(py: Python, ps: seq<Piece>)
    requires WellPlaced(py, None, ps)
    ensures BlankFrom(py, Render(ps), 0) == Success(BlankRender(ps))
  {
    assert Render(ps)[0..] == Render(ps);
    BlankExactFrom(py, Render(ps), 0, ps);
  }

  // --- What can be read off the blanked text ----------------------------------------------------

  predicate Structural(c: char) { c in "()[]{},;" }

  /** The code character at a position; None inside a comment or a literal. */
  function CodeAt(ps: seq<Piece>, q: nat): Option<char>
    decreases |ps|
  {
    if ps == [] then None
    else if q < |PieceText(ps[0])| then (if ps[0].Code? then Some(ps[0].c) else None)
    else CodeAt(ps[1..], q - |PieceText(ps[0])|)
  }

  lemma LiteralEnds(p: Piece)
    requires !p.Code? && !IsComment(p)
    ensures var t := PieceText(p); |t| >= 2 && !Structural(t[0]) && !Structural(t[|t| - 1])
  {
    hide Body, Inside;
    if p.RawStr? {
      RawEnds(p.prefix, p.hashes, p.raw);
    }
  }

  lemma RawEnds(p: Prefix, hashes: nat, raw: string)
    ensures var t := Raw(p, hashes, raw);
            |t| >= 2 && t[0] in "rbc" && (t[|t| - 1] == '"' || t[|t| - 1] == '#')
  {
    var tail := "\"" + Hashes(hashes);
    var t := Raw(p, hashes, raw);
    var head := Mark(p) + "r" + Hashes(hashes) + "\"" + raw;
    assert t == head + tail;
    assert t[|t| - 1] == tail[|tail| - 1];
    assert head[0] == (Mark(p) + "r")[0];
  }

  lemma PieceStructure(p: Piece, q: nat)
    requires q < |PieceText(p)| == |BlankPiece(p)|
    ensures p.Code? ==> BlankPiece(p)[q] == p.c
    ensures !p.Code? ==> !Structural(BlankPiece(p)[q])
  {
    hide Raw, Quoted, CharText, CommentText, OpenText;
    if !p.Code? && !IsComment(p) {
      LiteralEnds(p);
    }
  }

  /**
   Read off by position: the blanked text is as long as the source and has a bracket,
   comma or semicolon exactly where the code has it. (Its line breaks: `BlankFrom`.)
   */
  lemma {:induction false} StructureExact(ps: seq<Piece>, q: nat)
    requires q < |Render(ps)|
    ensures |BlankRender(ps)| == |Render(ps)|
    ensures CodeAt(ps, q).Some? ==> BlankRender(ps)[q] == CodeAt(ps, q).value
    ensures Structural(BlankRender(ps)[q]) ==> CodeAt(ps, q) == Some(BlankRender(ps)[q])
    decreases |ps|
  {
    hide Structural, PieceText, BlankPiece, Render, BlankRender, CodeAt;
    SameLength(ps);
    HeadOrRest(ps, q);
    if q < |PieceText(ps[0])| {
      PieceLength(ps[0]);
      PieceStructure(ps[0], q);
    } else {
      StructureExact(ps[1..], q - |PieceText(ps[0])|);
    }
  }

  lemma HeadOrRest(ps: seq<Piece>, q: nat)
    requires q < |Render(ps)| && |BlankRender(ps)| == |Render(ps)|
    ensures ps != []
    ensures var p, n := ps[0], |PieceText(ps[0])|;
            if q < n then
              && q < |BlankPiece(p)| && BlankRender(ps)[q] == BlankPiece(p)[q]
              && CodeAt(ps, q) == if p.Code? then Some(p.c) else None
            else
              q - n < |Render(ps[1..])| == |BlankRender(ps[1..])|
              && BlankRender(ps)[q] == BlankRender(ps[1..])[q - n] && CodeAt(ps, q) == CodeAt(ps[1..], q - n)
  {
    hide PieceText, BlankPiece;
    PieceLength(ps[0]);
    SameLength(ps[1..]);
    assert Render(ps) == PieceText(ps[0]) + Render(ps[1..]);
    assert BlankRender(ps) == BlankPiece(ps[0]) + BlankRender(ps[1..]);
    hide Render, BlankRender;
  }

  lemma PieceLength(p: Piece)
    ensures |BlankPiece(p)| == |PieceText(p)|
    ensures p.Code? || IsComment(p) || |PieceText(p)| >= 2
  {
    hide Raw, Quoted, CharText, CommentText, OpenText;
    if !p.Code? && !IsComment(p) {
      LiteralEnds(p);
    }
  }

  lemma {:induction false} SameLength(ps: seq<Piece>)
    ensures |BlankRender(ps)| == |Render(ps)|
    decreases |ps|
  {
    hide PieceText, BlankPiece;
    if ps != [] {
      PieceLength(ps[0]);
      SameLength(ps[1..]);
    }
  }
}
