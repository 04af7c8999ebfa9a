/**
 Reading Rust source as text: string literals, and where a comment or a literal
 ends. The script walks an index over the text; every index it may run off the
 end with, and every value it may fail to parse, is an error here.
 */
module PyText {
  import opened Wrappers

  datatype Error = IndexError | ValueError

  /** What the script takes from its interpreter: two character classes and `int(text, 16)`. */
  datatype Python = Python(alnum: char -> bool, space: char -> bool, int16: string -> Option<int>)

  predicate HexDigit(c: char) { '0' <= c <= '9' || 'a' <= c <= 'f' || 'A' <= c <= 'F' }

  predicate HexDigits(t: string) { forall i :: 0 <= i < |t| ==> HexDigit(t[i]) }

  function HexValue(c: char): (v: nat)
    requires HexDigit(c)
    ensures v < 16
  {
    if c <= '9' then c as int - '0' as int
    else if c <= 'F' then c as int - 'A' as int + 10
    else c as int - 'a' as int + 10
  }

  /** A hex number, underscores in it ignored. */
  function HexNumber(t: string): nat
    requires Digits(t)
  {
    if t == "" then 0
    else if t[|t| - 1] == '_' then HexNumber(t[..|t| - 1])
    else 16 * HexNumber(t[..|t| - 1]) + HexValue(t[|t| - 1])
  }

  predicate Digits(t: string) { forall i :: 0 <= i < |t| ==> HexDigit(t[i]) || t[i] == '_' }

  function CountDigits(t: string): nat {
    if t == "" then 0 else (if t[0] == '_' then 0 else 1) + CountDigits(t[1..])
  }

  /** What Rust takes between the braces of an escape: up to six hex digits, the first one first, and underscores. */
  predicate RustDigits(t: string) { t != "" && HexDigit(t[0]) && Digits(t) && CountDigits(t) <= 6 }

  /** Every underscore has a digit on both sides, as `int` wants it. */
  predicate Spaced(t: string) {
    forall i :: 0 <= i < |t| && t[i] == '_' ==> i + 1 < |t| && t[i + 1] != '_'
  }

  /** Of the interpreter only this is relied on: which of Rust's digits `int(t, 16)` reads, and as what. */
  ghost predicate Reads(py: Python) {
    forall t :: RustDigits(t) ==> py.int16(t) == if Spaced(t) then Some(HexNumber(t)) else None
  }

  /** And that it reads no number off an empty text. */
  predicate NoneFromNothing(py: Python) { py.int16("") == None }

  predicate Scalar(n: int) { 0 <= n < 0xD800 || 0xE000 <= n < 0x11_0000 }

  /** A text the script makes: code points, lone surrogates among them. A file's text has none and is a `string`. */
  type Points = seq<int>

  function Coded(t: string): Points { seq(|t|, k requires 0 <= k < |t| => t[k] as int) }

  /** `chr` takes every code point. */
  function Chr(n: Option<int>): Option<int> {
    if n.Some? && 0 <= n.value < 0x11_0000 then n else None
  }

  /** `t` stands in `s` at `j`. */
  predicate At(s: string, j: nat, t: string) {
    j + |t| <= |s| && forall k :: 0 <= k < |t| ==> s[j + k] == t[k]
  }

  lemma AtChar(s: string, j: nat, t: string, k: nat)
    requires At(s, j, t) && k < |t|
    ensures j + k < |s| && s[j + k] == t[k]
  {
  }

  /** A slice whose ends are cut to the text. */
  function Slice(s: string, from: nat, to: nat): string {
    var z := if to <= |s| then to else |s|;
    if from <= z then s[from..z] else ""
  }

  /** The first place at or after `from` where `t` stands. */
  function Find(s: string, t: string, from: nat): (r: Option<nat>)
    ensures r.Some? ==> from <= r.value && At(s, r.value, t) && forall k :: from <= k < r.value ==> !At(s, k, t)
    ensures r.None? ==> forall k :: from <= k ==> !At(s, k, t)
    decreases |s| - from
  {
    if from + |t| > |s| then None
    else if At(s, from, t) then Some(from)
    else Find(s, t, from + 1)
  }

  lemma FoundAt(s: string, t: string, from: nat, k: nat)
    requires from <= k && At(s, k, t) && forall i :: from <= i < k ==> !At(s, i, t)
    ensures Find(s, t, from) == Some(k)
  {
  }

  lemma AtOne(s: string, j: nat, c: char)
    ensures At(s, j, [c]) <==> j < |s| && s[j] == c
  {
    if At(s, j, [c]) {
      AtChar(s, j, [c], 0);
    }
  }

  lemma AtParts(s: string, j: nat, t: string, u: string)
    ensures At(s, j, t + u) <==> At(s, j, t) && At(s, j + |t|, u)
  {
    var w := t + u;
    assert forall k :: 0 <= k < |t| ==> t[k] == w[k];
    assert forall k :: 0 <= k < |u| ==> u[k] == w[|t| + k];
    if At(s, j, w) {
      forall k | 0 <= k < |u| ensures s[j + |t| + k] == u[k] {
        AtChar(s, j, w, |t| + k);
      }
    }
    if At(s, j, t) && At(s, j + |t|, u) {
      forall k | 0 <= k < |w| ensures s[j + k] == w[k] {
        if k < |t| { AtChar(s, j, t, k); } else { AtChar(s, j + |t|, u, k - |t|); }
      }
    }
  }

  lemma AtInside(s: string, j: nat, whole: string, k: nat, t: string)
    requires At(s, j, whole) && j <= k && k + |t| <= j + |whole|
    ensures At(s, k, t) <==> At(whole, k - j, t)
  {
    if At(s, k, t) {
      forall i | 0 <= i < |t| ensures whole[k - j + i] == t[i] {
        AtChar(s, j, whole, k - j + i);
        AtChar(s, k, t, i);
      }
    }
    if At(whole, k - j, t) {
      forall i | 0 <= i < |t| ensures s[k + i] == t[i] {
        AtChar(s, j, whole, k - j + i);
        AtChar(whole, k - j, t, i);
      }
    }
  }

  lemma AtShift(head: string, after: string, k: nat, t: string)
    ensures At(head + after, |head| + k, t) <==> At(after, k, t)
  {
    var w := head + after;
    assert forall i :: 0 <= i < |after| ==> w[|head| + i] == after[i];
    if At(w, |head| + k, t) {
      forall i | 0 <= i < |t| ensures after[k + i] == t[i] {
        AtChar(w, |head| + k, t, i);
      }
    }
    if At(after, k, t) {
      forall i | 0 <= i < |t| ensures w[|head| + k + i] == t[i] {
        AtChar(after, k, t, i);
      }
    }
  }

  lemma Within(before: string, t: string, after: string)
    ensures At(before + t + after, |before|, t)
  {
  }

  lemma SliceAt(s: string, j: nat, t: string)
    requires At(s, j, t)
    ensures Slice(s, j, j + |t|) == t && s[j..j + |t|] == t
  {
  }
}

module RustLiterals {
  import opened PyText
  import opened Wrappers

  /** The value read and the index past the literal. */
  datatype Literal = Literal(value: Points, end: nat)

  type Read = Result<Literal, Error>

  predicate Blankish(c: char) { c == ' ' || c == '\t' || c == '\r' || c == '\n' }

  /** The first place at or after `j` that is not white space; the end of the text otherwise. */
  function PastBlank(s: string, j: nat): (k: nat)
    requires j <= |s|
    ensures j <= k <= |s|
    ensures forall i :: j <= i < k ==> Blankish(s[i])
    ensures k < |s| ==> !Blankish(s[k])
    decreases |s| - j
  {
    if j < |s| && Blankish(s[j]) then PastBlank(s, j + 1) else j
  }

  function Escaped(c: char): Option<char> {
    match c
    case 'n' => Some('\n')
    case 't' => Some('\t')
    case 'r' => Some('\r')
    case '0' => Some('\0')
    case '\\' => Some('\\')
    case '"' => Some('"')
    case '\'' => Some('\'')
    case _ => None
  }

  /** One turn of the reading loop at `j`: what is appended, and where the next turn starts. */
  datatype Turn = Turn(piece: Points, next: nat) | Close | Fail(error: Error)

  function EscapeTurn(py: Python, s: string, j: nat): (t: Turn)
    requires j < |s| && s[j] == '\\'
    ensures t.Turn? ==> t.next > j
  {
    if j + 1 >= |s| then Fail(IndexError)
    else
      var n := s[j + 1];
      if n == '\r' && j + 2 >= |s| then Fail(IndexError)
      else if n == '\n' || (n == '\r' && s[j + 2] == '\n') then
        var k := PastBlank(s, if n == '\n' then j + 2 else j + 3);
        if k == |s| then Fail(IndexError) else Turn([], k)
      else if Escaped(n).Some? then Turn([Escaped(n).value as int], j + 2)
      else if n == 'x' then
        var c := Chr(py.int16(Slice(s, j + 2, j + 4)));
        if c.None? then Fail(ValueError) else Turn([c.value], j + 4)
      else if n == 'u' then
        var k := Find(s, "}", j);
        if k.None? then Fail(ValueError)
        else
          var c := Chr(py.int16(Slice(s, j + 3, k.value)));
          if c.None? then Fail(ValueError) else Turn([c.value], k.value + 1)
      else Fail(ValueError)
  }

  function TurnAt(py: Python, s: string, j: nat): (t: Turn)
    ensures t.Turn? ==> t.next > j && j < |s|
    ensures t.Close? ==> j < |s| && s[j] == '"'
  {
    if j >= |s| then Fail(IndexError)
    else if s[j] == '"' then Close
    else if s[j] == '\\' then EscapeTurn(py, s, j)
    else if s[j] == '\r' && j + 1 >= |s| then Fail(IndexError)
    else if s[j] == '\r' && s[j + 1] == '\n' then Turn([], j + 1)
    else Turn([s[j] as int], j + 1)
  }

  /** From inside an ordinary literal, with `out` read so far. */
  function ReadBody(py: Python, s: string, j: nat, out: Points): (r: Read)
    ensures r.Success? ==> j < r.value.end <= |s| && s[r.value.end - 1] == '"'
    decreases |s| - j
  {
    match TurnAt(py, s, j)
    case Fail(e) => Failure(e)
    case Close => Success(Literal(out, j + 1))
    case Turn(piece, next) => ReadBody(py, s, next, out + piece)
  }

  function Hashes(n: nat): (r: string)
    ensures |r| == n && forall i :: 0 <= i < n ==> r[i] == '#'
  {
    seq(n, _ => '#')
  }

  function CountHashes(s: string, j: nat): (n: nat)
    requires j <= |s|
    ensures j + n <= |s| && (forall i :: j <= i < j + n ==> s[i] == '#')
    ensures j + n < |s| ==> s[j + n] != '#'
    decreases |s| - j
  {
    if j < |s| && s[j] == '#' then 1 + CountHashes(s, j + 1) else 0
  }

  /** The opening of a raw literal: its hashes, and its length up to and with the quote. */
  datatype Opening = Opening(hashes: nat, length: nat)

  /** The script looks for the opening in a window of twelve characters. */
  const WINDOW: nat := 12

  function RawOpening(s: string, i: nat): (r: Option<Opening>)
    ensures r.Some? ==>
              && 2 <= r.value.length <= WINDOW && i + r.value.length <= |s|
              && r.value.hashes + 2 <= r.value.length
  {
    var w := Slice(s, i, i + WINDOW);
    var p := if |w| > 0 && (w[0] == 'b' || w[0] == 'c') then 1 else 0;
    if p >= |w| || w[p] != 'r' then None
    else
      var h := CountHashes(w, p + 1);
      if p + 1 + h < |w| && w[p + 1 + h] == '"' then Some(Opening(h, p + h + 2)) else None
  }

  /** Each CR LF pair as one LF. */
  function Unix(t: string): (r: string)
    ensures |r| <= |t|
  {
    if t == "" then ""
    else if |t| >= 2 && t[0] == '\r' && t[1] == '\n' then "\n" + Unix(t[2..])
    else [t[0]] + Unix(t[1..])
  }

  function ReadString(py: Python, s: string, i: nat): (r: Read)
    ensures r.Success? ==> i < r.value.end <= |s|
  {
    match RawOpening(s, i)
    case Some(o) =>
      var start := i + o.length;
      var end := Find(s, "\"" + Hashes(o.hashes), start);
      if end.None? then Failure(ValueError)
      else Success(Literal(Coded(Unix(s[start..end.value])), end.value + 1 + o.hashes))
    case None =>
      if i >= |s| then Failure(IndexError)
      else if (s[i] == 'b' || s[i] == 'c') && i + 1 >= |s| then Failure(IndexError)
      else
        var q := if (s[i] == 'b' || s[i] == 'c') && s[i + 1] == '"' then i + 1 else i;
        if s[q] != '"' then Failure(ValueError) else ReadBody(py, s, q + 1, [])
  }

  /** The escape at `j`, with the script's loop over a continuation's white space. */
  method ReadEscape(py: Python, s: string, j: nat) returns (t: Turn)
    requires j < |s| && s[j] == '\\'
    ensures t == EscapeTurn(py, s, j)
  {
    if j + 1 >= |s| {
      return Fail(IndexError);
    }
    var n := s[j + 1];
    if n == '\r' && j + 2 >= |s| {
      return Fail(IndexError);
    }
    if n == '\n' || (n == '\r' && s[j + 2] == '\n') {
      var k := j + (if n == '\n' then 2 else 3);
      ghost var from := k;
      while k < |s| && Blankish(s[k])
        invariant from <= k <= |s| && PastBlank(s, k) == PastBlank(s, from)
      {
        k := k + 1;
      }
      return if k == |s| then Fail(IndexError) else Turn([], k);
    }
    if Escaped(n).Some? {
      return Turn([Escaped(n).value as int], j + 2);
    }
    if n == 'x' {
      var c := Chr(py.int16(Slice(s, j + 2, j + 4)));
      return if c.None? then Fail(ValueError) else Turn([c.value], j + 4);
    }
    if n == 'u' {
      var k := Find(s, "}", j);
      if k.None? {
        return Fail(ValueError);
      }
      var c := Chr(py.int16(Slice(s, j + 3, k.value)));
      return if c.None? then Fail(ValueError) else Turn([c.value], k.value + 1);
    }
    t := Fail(ValueError);
  }

  lemma TurnRead(py: Python, s: string, j: nat, out: Points, piece: Points, next: nat)
    requires TurnAt(py, s, j) == Turn(piece, next)
    ensures ReadBody(py, s, j, out) == ReadBody(py, s, next, out + piece)
  {
  }

  /** The script's loop from inside an ordinary literal. */
  method ReadQuoted(py: Python, s: string, from: nat) returns (r: Read)
    ensures r == ReadBody(py, s, from, [])
  {
    var out: Points, j: nat := [], from;
    while j < |s|
      invariant ReadBody(py, s, from, []) == ReadBody(py, s, j, out)
      decreases |s| - j
    {
      if s[j] == '"' {
        return Success(Literal(out, j + 1));
      }
      var t: Turn;
      if s[j] == '\\' {
        t := ReadEscape(py, s, j);
      } else if s[j] == '\r' && j + 1 >= |s| {
        t := Fail(IndexError);
      } else if s[j] == '\r' && s[j + 1] == '\n' {
        t := Turn([], j + 1);
      } else {
        t := Turn([s[j] as int], j + 1);
      }
      if t.Fail? {
        return Failure(t.error);
      }
      hide EscapeTurn;
      out := out + t.piece;
      j := t.next;
    }
    r := Failure(IndexError);
  }

  method ReadLiteral(py: Python, s: string, i: nat) returns (r: Read)
    ensures r == ReadString(py, s, i)
  {
    hide ReadBody, Find, Unix, RawOpening, Hashes;
    var raw := RawOpening(s, i);
    if raw.Some? {
      var start := i + raw.value.length;
      var end := Find(s, "\"" + Hashes(raw.value.hashes), start);
      if end.None? {
        return Failure(ValueError);
      }
      return Success(Literal(Coded(Unix(s[start..end.value])), end.value + 1 + raw.value.hashes));
    }
    if i >= |s| {
      return Failure(IndexError);
    }
    var q := i;
    if s[q] == 'b' || s[q] == 'c' {
      if q + 1 >= |s| {
        return Failure(IndexError);
      }
      if s[q + 1] == '"' {
        q := q + 1;
      }
    }
    if s[q] != '"' {
      return Failure(ValueError);
    }
    r := ReadQuoted(py, s, q + 1);
  }

  // --- Literals as Rust writes them -------------------------------------------------------

  /** One thing between the quotes. `Newline` and `Continue` end their line with LF or CR LF. */
  datatype Item =
    | Plain(c: char)
    | Newline(crlf: bool)
    | Simple(letter: char)
    | Byte(hi: char, lo: char)
    | Unicode(open: char, digits: string)
    | Continue(crlf: bool, blank: string)

  function LineEnd(crlf: bool): string { if crlf then "\r\n" else "\n" }

  function Written(i: Item): string {
    match i
    case Plain(c) => [c]
    case Newline(crlf) => LineEnd(crlf)
    case Simple(letter) => ['\\', letter]
    case Byte(hi, lo) => ['\\', 'x', hi, lo]
    case Unicode(open, digits) => "\\u" + [open] + digits + "}"
    case Continue(crlf, blank) => "\\" + LineEnd(crlf) + blank
  }

  /** What the reader's loop tells apart, whatever number it makes of it. */
  predicate Shaped(i: Item) {
    match i
    case Plain(c) => c != '"' && c != '\\' && c != '\n'
    case Newline(_) => true
    case Simple(letter) => Escaped(letter).Some?
    case Byte(_, _) => true
    case Unicode(open, digits) => open != '}' && '}' !in digits
    case Continue(_, blank) => forall k :: 0 <= k < |blank| ==> Blankish(blank[k])
  }

  /** Written as Rust writes it. */
  predicate Wellformed(i: Item) {
    match i
    case Byte(hi, lo) => HexDigit(hi) && HexDigit(lo)
    case Unicode(open, digits) => open == '{' && RustDigits(digits) && Scalar(HexNumber(digits))
    case _ => Shaped(i)
  }

  /** What the compiler makes of it. */
  function Means(i: Item): Points
    requires Wellformed(i)
  {
    match i
    case Plain(c) => [c as int]
    case Newline(_) => ['\n' as int]
    case Simple(letter) => [Escaped(letter).value as int]
    case Byte(hi, lo) => [16 * HexValue(hi) + HexValue(lo)]
    case Unicode(_, digits) => [HexNumber(digits)]
    case Continue(_, _) => []
  }

  /** The number an escape names, as the script reads it. */
  function Named(py: Python, i: Item): Option<int> {
    match i
    case Byte(hi, lo) => Chr(py.int16([hi, lo]))
    case Unicode(_, digits) => Chr(py.int16(digits))
    case _ => None
  }

  predicate Taken(py: Python, i: Item) { (i.Byte? || i.Unicode?) ==> Named(py, i).Some? }

  /** What the script makes of it. */
  function Taking(py: Python, i: Item): Points
    requires Shaped(i) && Taken(py, i)
  {
    match i
    case Plain(c) => [c as int]
    case Newline(_) => ['\n' as int]
    case Simple(letter) => [Escaped(letter).value as int]
    case Byte(_, _) => [Named(py, i).value]
    case Unicode(_, _) => [Named(py, i).value]
    case Continue(_, _) => []
  }

  function Body(items: seq<Item>): string {
    if items == [] then "" else Written(items[0]) + Body(items[1..])
  }

  /** What follows an item inside its literal: never empty. */
  function Follows(items: seq<Item>): (r: string)
    ensures r != ""
  {
    Body(items) + "\""
  }

  /** A bare CR is not before a LF, and a continuation's white space ends where it says. */
  predicate Fits(i: Item, rest: seq<Item>) {
    && Shaped(i)
    && (i.Plain? && i.c == '\r' ==> Follows(rest)[0] != '\n')
    && (i.Continue? ==> !Blankish(Follows(rest)[0]))
  }

  /** Items a reader can tell apart. */
  predicate Laid(items: seq<Item>) {
    items != [] ==> Fits(items[0], items[1..]) && Laid(items[1..])
  }

  predicate AllTaken(py: Python, items: seq<Item>) {
    items != [] ==> Taken(py, items[0]) && AllTaken(py, items[1..])
  }

  /** What the script reads. */
  function Took(py: Python, items: seq<Item>): Points
    requires Laid(items) && AllTaken(py, items)
  {
    if items == [] then [] else Taking(py, items[0]) + Took(py, items[1..])
  }

  /** Every item as Rust writes it. */
  predicate Proper(items: seq<Item>) {
    items != [] ==> Wellformed(items[0]) && Fits(items[0], items[1..]) && Proper(items[1..])
  }

  function Value(items: seq<Item>): Points
    requires Proper(items)
  {
    if items == [] then [] else Means(items[0]) + Value(items[1..])
  }

  /** No escape has two underscores in a row, or one before its brace. */
  predicate AllSpaced(items: seq<Item>) {
    items != [] ==> (items[0].Unicode? ==> Spaced(items[0].digits)) && AllSpaced(items[1..])
  }

  lemma BlankEnds(s: string, j: nat, blank: string)
    requires At(s, j, blank) && j + |blank| < |s| && !Blankish(s[j + |blank|])
    requires forall k :: 0 <= k < |blank| ==> Blankish(blank[k])
    ensures PastBlank(s, j) == j + |blank|
  {
    forall i | j <= i < j + |blank| ensures Blankish(s[i]) {
      AtChar(s, j, blank, i - j);
    }
  }

  lemma TwoDigits(hi: char, lo: char)
    requires HexDigit(hi) && HexDigit(lo)
    ensures RustDigits([hi, lo]) && Spaced([hi, lo]) && HexNumber([hi, lo]) == 16 * HexValue(hi) + HexValue(lo)
  {
    assert [hi, lo][..1] == [hi];
    assert [hi][..0] == "";
    assert HexNumber([hi]) == HexValue(hi);
    assert [hi, lo][1..] == [lo] && [lo][1..] == "";
    assert CountDigits([lo]) == 1;
  }

  lemma ContinueTurn(py: Python, s: string, j: nat, crlf: bool, blank: string)
    requires At(s, j, Written(Continue(crlf, blank))) && Shaped(Continue(crlf, blank))
    requires j + |Written(Continue(crlf, blank))| < |s| && !Blankish(s[j + |Written(Continue(crlf, blank))|])
    ensures TurnAt(py, s, j) == Turn([], j + |Written(Continue(crlf, blank))|)
  {
    AtParts(s, j, "\\" + LineEnd(crlf), blank);
    AtParts(s, j, "\\", LineEnd(crlf));
    BlankEnds(s, j + 1 + |LineEnd(crlf)|, blank);
    AtChar(s, j, "\\", 0);
    AtChar(s, j + 1, LineEnd(crlf), 0);
    if crlf {
      AtChar(s, j + 1, LineEnd(crlf), 1);
    }
  }

  lemma BraceFound(s: string, j: nat, open: char, digits: string)
    requires Shaped(Unicode(open, digits)) && At(s, j, Written(Unicode(open, digits)))
    ensures j + 3 + |digits| < |s| && s[j] == '\\' && s[j + 1] == 'u'
    ensures Find(s, "}", j) == Some(j + 3 + |digits|) && Slice(s, j + 3, j + 3 + |digits|) == digits
  {
    var head := "\\u" + [open];
    AtParts(s, j, head + digits, "}");
    AtParts(s, j, head, digits);
    AtChar(s, j, head, 0);
    AtChar(s, j, head, 1);
    AtChar(s, j, head, 2);
    AtChar(s, j + 3 + |digits|, "}", 0);
    forall k: nat | j <= k < j + 3 + |digits| ensures !At(s, k, "}") {
      if k >= j + 3 {
        AtChar(s, j + 3, digits, k - j - 3);
      }
      AtOne(s, k, '}');
    }
    FoundAt(s, "}", j, j + 3 + |digits|);
    SliceAt(s, j + 3, digits);
  }

  lemma UnicodeTurn(py: Python, s: string, j: nat, open: char, digits: string)
    requires Shaped(Unicode(open, digits)) && At(s, j, Written(Unicode(open, digits)))
    ensures TurnAt(py, s, j) ==
            var c := Chr(py.int16(digits)); if c.Some? then Turn([c.value], j + |digits| + 4) else Fail(ValueError)
  {
    BraceFound(s, j, open, digits);
    hide Find, Slice, At, Chr;
  }

  lemma ByteTurn(py: Python, s: string, j: nat, hi: char, lo: char)
    requires At(s, j, Written(Byte(hi, lo)))
    ensures TurnAt(py, s, j) ==
            var c := Chr(py.int16([hi, lo])); if c.Some? then Turn([c.value], j + 4) else Fail(ValueError)
  {
    assert Written(Byte(hi, lo)) == "\\x" + [hi, lo];
    AtParts(s, j, "\\x", [hi, lo]);
    AtChar(s, j, "\\x", 0);
    AtChar(s, j, "\\x", 1);
    SliceAt(s, j + 2, [hi, lo]);
  }

  /** A LF is read in one turn; a CR LF in two, the first of which appends nothing. */
  lemma NewlineTurns(py: Python, s: string, j: nat, crlf: bool, out: Points)
    requires At(s, j, LineEnd(crlf))
    ensures ReadBody(py, s, j, out) == ReadBody(py, s, j + |LineEnd(crlf)|, out + ['\n' as int])
  {
    AtChar(s, j, LineEnd(crlf), 0);
    if crlf {
      AtChar(s, j, LineEnd(crlf), 1);
      assert TurnAt(py, s, j) == Turn([], j + 1);
      assert TurnAt(py, s, j + 1) == Turn(['\n' as int], j + 2);
      assert out + [] == out;
    }
  }

  lemma PlainTurn(py: Python, s: string, j: nat, c: char)
    requires At(s, j, [c]) && Shaped(Plain(c)) && j + 1 < |s| && (c == '\r' ==> s[j + 1] != '\n')
    ensures TurnAt(py, s, j) == Turn([c as int], j + 1)
  {
    AtChar(s, j, [c], 0);
  }

  lemma SimpleTurn(py: Python, s: string, j: nat, letter: char)
    requires At(s, j, ['\\', letter]) && Shaped(Simple(letter))
    ensures TurnAt(py, s, j) == Turn([Escaped(letter).value as int], j + 2)
  {
    AtChar(s, j, ['\\', letter], 0);
    AtChar(s, j, ['\\', letter], 1);
  }

  /** One item, whatever stands behind it, takes one turn - but for a line end. */
  lemma ItemTurn(py: Python, s: string, j: nat, i: Item)
    requires Shaped(i) && !i.Newline? && At(s, j, Written(i)) && j + |Written(i)| < |s|
    requires i.Plain? && i.c == '\r' ==> s[j + |Written(i)|] != '\n'
    requires i.Continue? ==> !Blankish(s[j + |Written(i)|])
    ensures TurnAt(py, s, j) == if Taken(py, i) then Turn(Taking(py, i), j + |Written(i)|) else Fail(ValueError)
  {
    hide TurnAt, At, Chr;
    match i
    case Plain(c) => PlainTurn(py, s, j, c);
    case Simple(letter) => SimpleTurn(py, s, j, letter);
    case Byte(hi, lo) => ByteTurn(py, s, j, hi, lo);
    case Unicode(open, digits) => UnicodeTurn(py, s, j, open, digits);
    case Continue(crlf, blank) => ContinueTurn(py, s, j, crlf, blank);
  }

  lemma TurnFails(py: Python, s: string, j: nat, out: Points, e: Error)
    requires TurnAt(py, s, j) == Fail(e)
    ensures ReadBody(py, s, j, out) == Failure(e)
  {
  }

  /** One item is read as what the script makes of it, or fails the reading. */
  lemma ItemRead(py: Python, s: string, j: nat, i: Item, rest: seq<Item>, out: Points)
    requires Fits(i, rest)
    requires At(s, j, Written(i)) && At(s, j + |Written(i)|, Follows(rest))
    ensures ReadBody(py, s, j, out) ==
            if Taken(py, i) then ReadBody(py, s, j + |Written(i)|, out + Taking(py, i)) else Failure(ValueError)
  {
    hide ReadBody, TurnAt, Body;
    var next := j + |Written(i)|;
    AtChar(s, next, Follows(rest), 0);
    if i.Newline? {
      NewlineTurns(py, s, j, i.crlf, out);
    } else {
      hide At, Follows, Written, Taken, Taking, Shaped;
      ItemTurn(py, s, j, i);
      if Taken(py, i) {
        TurnRead(py, s, j, out, Taking(py, i), next);
      } else {
        TurnFails(py, s, j, out, ValueError);
      }
    }
  }

  lemma CloseRead(py: Python, s: string, j: nat, out: Points)
    requires At(s, j, "\"")
    ensures ReadBody(py, s, j, out) == Success(Literal(out, j + 1))
  {
    AtChar(s, j, "\"", 0);
  }

  /** What the loop makes of laid items, Rust's or not. */
  lemma {:induction false} BodyRead(py: Python, s: string, j: nat, items: seq<Item>, out: Points)
    requires Laid(items) && At(s, j, Follows(items))
    ensures ReadBody(py, s, j, out) ==
            if AllTaken(py, items) then Success(Literal(out + Took(py, items), j + |Body(items)| + 1))
                else Failure(ValueError)
    decreases |items|
  {
    hide ReadBody, TurnAt, Taken, Taking, Written, At;
    if items == [] {
      assert Follows(items) == "\"";
      CloseRead(py, s, j, out);
      assert out + [] == out;
    } else {
      var i, rest := items[0], items[1..];
      assert Follows(items) == Written(i) + Follows(rest);
      AtParts(s, j, Written(i), Follows(rest));
      ItemRead(py, s, j, i, rest, out);
      if Taken(py, i) {
        BodyRead(py, s, j + |Written(i)|, rest, out + Taking(py, i));
        if AllTaken(py, rest) {
          assert out + Taking(py, i) + Took(py, rest) == out + Took(py, items);
        }
      }
    }
  }

  lemma RustItem(py: Python, i: Item)
    requires Reads(py) && Wellformed(i)
    ensures Shaped(i) && (Taken(py, i) <==> (i.Unicode? ==> Spaced(i.digits)))
    ensures Taken(py, i) ==> Taking(py, i) == Means(i)
  {
    match i
    case Byte(hi, lo) => TwoDigits(hi, lo);
    case Unicode(_, digits) => assert RustDigits(digits) && '}' !in digits;
    case _ =>
  }

  /** Rust's items are taken exactly if their underscores are spaced, and then for what they mean. */
  lemma {:induction false} RustItems(py: Python, items: seq<Item>)
    requires Reads(py) && Proper(items)
    ensures Laid(items) && (AllTaken(py, items) <==> AllSpaced(items))
    ensures AllTaken(py, items) ==> Took(py, items) == Value(items)
    decreases |items|
  {
    hide Reads, Means, Taking, Taken, Shaped, Wellformed, Spaced;
    if items != [] {
      RustItem(py, items[0]);
      RustItems(py, items[1..]);
    }
  }

  /** The prefix of a literal that is not raw. */
  datatype Prefix = Bare | B | C

  function Mark(p: Prefix): string {
    match p
    case Bare => ""
    case B => "b"
    case C => "c"
  }

  function Quoted(p: Prefix, items: seq<Item>): string {
    Mark(p) + "\"" + Follows(items)
  }

  lemma NotRaw(s: string, i: nat)
    requires i < |s| && (s[i] == '"' || (i + 1 < |s| && (s[i] == 'b' || s[i] == 'c') && s[i + 1] == '"'))
    ensures RawOpening(s, i).None?
  {
  }

  lemma QuoteOpens(py: Python, s: string, i: nat, p: Prefix)
    requires At(s, i, Mark(p)) && At(s, i + |Mark(p)|, "\"")
    ensures ReadString(py, s, i) == ReadBody(py, s, i + |Mark(p)| + 1, [])
  {
    hide ReadBody, Find, Unix, RawOpening;
    var q := i + |Mark(p)|;
    AtChar(s, q, "\"", 0);
    if p != Bare {
      AtChar(s, i, Mark(p), 0);
    }
    NotRaw(s, i);
  }

  /** What reading a literal that ends at `end` comes to. */
  function Outcome(items: seq<Item>, end: nat): Read
    requires Proper(items)
  {
    if AllSpaced(items) then Success(Literal(Value(items), end)) else Failure(ValueError)
  }

  /**
   An ordinary literal, whatever stands around it, is read as its value, up to its closing
   quote - unless one of its escapes has underscores that `int` refuses.
   */
  lemma OrdinaryReadsBack(py: Python, s: string, i: nat, p: Prefix, items: seq<Item>)
    requires Reads(py) && Proper(items) && At(s, i, Quoted(p, items))
    ensures ReadString(py, s, i) == Outcome(items, i + |Quoted(p, items)|)
  {
    hide ReadString, ReadBody, At, Reads, Proper, Laid, AllTaken, AllSpaced, Took, Value;
    RustItems(py, items);
    LiteralRead(py, s, i, p, items);
  }

  /** Of a literal of any laid items, Rust's or not. */
  lemma LiteralRead(py: Python, s: string, i: nat, p: Prefix, items: seq<Item>)
    requires Laid(items) && At(s, i, Quoted(p, items))
    ensures ReadString(py, s, i) ==
            if AllTaken(py, items) then Success(Literal(Took(py, items), i + |Quoted(p, items)|))
                else Failure(ValueError)
  {
    hide ReadString, ReadBody, At, Laid, AllTaken, Took;
    AtParts(s, i, Mark(p) + "\"", Follows(items));
    AtParts(s, i, Mark(p), "\"");
    QuoteOpens(py, s, i, p);
    BodyRead(py, s, i + |Mark(p)| + 1, items, []);
    if AllTaken(py, items) {
      assert [] + Took(py, items) == Took(py, items);
    }
  }

  /** Any character can be written. */
  function EscapeChar(c: char): Item {
    if c == '"' then Simple('"')
    else if c == '\\' then Simple('\\')
    else if c == '\r' then Simple('r')
    else if c == '\n' then Newline(false)
    else Plain(c)
  }

  function Escape(value: string): (items: seq<Item>)
    ensures |items| == |value|
  {
    if value == "" then [] else [EscapeChar(value[0])] + Escape(value[1..])
  }

  lemma EscapeCharMeans(c: char, rest: seq<Item>)
    ensures Wellformed(EscapeChar(c)) && Fits(EscapeChar(c), rest) && Means(EscapeChar(c)) == [c as int]
    ensures !EscapeChar(c).Unicode?
  {
  }

  lemma {:induction false} EscapeMeans(value: string)
    ensures Proper(Escape(value)) && AllSpaced(Escape(value)) && Value(Escape(value)) == Coded(value)
  {
    if value != "" {
      hide Means, Fits, EscapeChar, Wellformed;
      EscapeMeans(value[1..]);
      EscapeCharMeans(value[0], Escape(value[1..]));
      assert Escape(value)[0] == EscapeChar(value[0]) && Escape(value)[1..] == Escape(value[1..]);
      assert Coded(value) == [value[0] as int] + Coded(value[1..]);
    }
  }

  lemma AnyValueReadsBack(py: Python, before: string, p: Prefix, value: string, after: string)
    requires Reads(py)
    ensures ReadString(py, before + Quoted(p, Escape(value)) + after, |before|)
            == Success(Literal(Coded(value), |before + Quoted(p, Escape(value))|))
  {
    hide ReadString, Reads, Proper, AllSpaced, Value, Escape, Quoted;
    var s := before + Quoted(p, Escape(value)) + after;
    EscapeMeans(value);
    Within(before, Quoted(p, Escape(value)), after);
    OrdinaryReadsBack(py, s, |before|, p, Escape(value));
  }

  // --- Raw literals -----------------------------------------------------------------------

  function Raw(p: Prefix, hashes: nat, body: string): string {
    Mark(p) + "r" + Hashes(hashes) + "\"" + body + "\"" + Hashes(hashes)
  }

  /** Enough hashes: the body nowhere closes the literal itself, not even with the quote that does. */
  predicate Encloses(hashes: nat, body: string) {
    forall k: nat :: k < |body| ==> !ClosesAt(hashes, body, k)
  }

  predicate ClosesAt(hashes: nat, body: string, k: nat) {
    At(body + "\"" + Hashes(hashes), k, "\"" + Hashes(hashes))
  }

  /** The opening is recognised when it fits the window, and only then. */
  lemma RawOpensAt(s: string, i: nat, m: nat, hashes: nat)
    requires i + m + hashes + 1 < |s| && m <= 1 && (m == 1 ==> s[i] == 'b' || s[i] == 'c')
    requires s[i + m] == 'r' && s[i + m + 1 + hashes] == '"'
    requires forall k :: i + m < k <= i + m + hashes ==> s[k] == '#'
    ensures m + hashes + 2 <= WINDOW ==> RawOpening(s, i) == Some(Opening(hashes, m + hashes + 2))
    ensures m + hashes + 2 > WINDOW ==> RawOpening(s, i).None?
  {
    hide CountHashes;
    var w := Slice(s, i, i + WINDOW);
    assert |w| == if i + WINDOW <= |s| then WINDOW else |s| - i;
    assert forall k :: 0 <= k < |w| ==> w[k] == s[i + k];
    hide Slice;
    assert forall k :: m < k <= m + hashes && k < |w| ==> w[k] == '#';
    assert m + 1 + hashes < |w| ==> w[m + 1 + hashes] == '"';
  }

  lemma RawOpens(s: string, i: nat, p: Prefix, hashes: nat)
    requires At(s, i, Mark(p) + "r" + Hashes(hashes) + "\"")
    ensures |Mark(p)| + hashes + 2 <= WINDOW ==> RawOpening(s, i) == Some(Opening(hashes, |Mark(p)| + hashes + 2))
    ensures |Mark(p)| + hashes + 2 > WINDOW ==> RawOpening(s, i).None?
    ensures s[i + |Mark(p)|] == 'r' && (p != Bare ==> s[i] == 'b' || s[i] == 'c')
  {
    hide RawOpening, Hashes;
    var m := |Mark(p)|;
    AtParts(s, i, Mark(p) + "r" + Hashes(hashes), "\"");
    AtParts(s, i, Mark(p) + "r", Hashes(hashes));
    AtParts(s, i, Mark(p), "r");
    if p != Bare {
      AtChar(s, i, Mark(p), 0);
    }
    AtChar(s, i + m, "r", 0);
    forall k | i + m < k <= i + m + hashes ensures s[k] == '#' {
      AtChar(s, i + m + 1, Hashes(hashes), k - i - m - 1);
    }
    AtChar(s, i + m + 1 + hashes, "\"", 0);
    RawOpensAt(s, i, m, hashes);
  }

  lemma ClosesWhere(s: string, j: nat, hashes: nat, body: string, k: nat)
    requires At(s, j, body + "\"" + Hashes(hashes)) && j <= k < j + |body| && At(s, k, "\"" + Hashes(hashes))
    ensures ClosesAt(hashes, body, k - j)
  {
    hide Hashes;
    var close, whole := "\"" + Hashes(hashes), body + "\"" + Hashes(hashes);
    AtInside(s, j, whole, k, close);
  }

  /** Closing within `rest` is closing later within `head + rest`. */
  lemma ClosesLater(hashes: nat, head: string, rest: string, k: nat)
    ensures ClosesAt(hashes, rest, k) <==> ClosesAt(hashes, head + rest, |head| + k)
  {
    hide Hashes;
    var close := "\"" + Hashes(hashes);
    var whole, after := head + rest + "\"" + Hashes(hashes), rest + "\"" + Hashes(hashes);
    assert whole == head + after;
    AtShift(head, after, k, close);
  }

  lemma CloseFound(s: string, j: nat, hashes: nat, body: string)
    requires Encloses(hashes, body) && At(s, j, body + "\"" + Hashes(hashes))
    ensures Find(s, "\"" + Hashes(hashes), j) == Some(j + |body|)
  {
    hide Find, Hashes;
    var close := "\"" + Hashes(hashes);
    var whole := body + "\"" + Hashes(hashes);
    assert whole == body + close;
    AtParts(s, j, body, close);
    forall k: nat | j <= k < j + |body| ensures !At(s, k, close) {
      if At(s, k, close) {
        ClosesWhere(s, j, hashes, body, k);
      }
    }
    FoundAt(s, close, j, j + |body|);
  }

  /** A raw literal is read as its body, every CR LF in it as one LF. */
  lemma RawReadsBack(py: Python, s: string, i: nat, p: Prefix, hashes: nat, body: string)
    requires Encloses(hashes, body) && |Mark(p)| + hashes + 2 <= WINDOW && At(s, i, Raw(p, hashes, body))
    ensures ReadString(py, s, i) == Success(Literal(Coded(Unix(body)), i + |Raw(p, hashes, body)|))
  {
    hide Find, Hashes, Unix, RawOpening, Encloses, Mark;
    var open := Mark(p) + "r" + Hashes(hashes) + "\"";
    RawSplits(s, i, p, hashes, body);
    RawOpens(s, i, p, hashes);
    var start := i + |open|;
    CloseFound(s, start, hashes, body);
    SliceAt(s, start, body);
  }

  lemma RawSplits(s: string, i: nat, p: Prefix, hashes: nat, body: string)
    requires At(s, i, Raw(p, hashes, body))
    ensures var open := Mark(p) + "r" + Hashes(hashes) + "\"";
            && At(s, i, open) && At(s, i + |open|, body + "\"" + Hashes(hashes)) && At(s, i + |open|, body)
            && |Raw(p, hashes, body)| == |open| + |body| + 1 + hashes
  {
    hide Hashes, Mark;
    var open := Mark(p) + "r" + Hashes(hashes) + "\"";
    assert Raw(p, hashes, body) == open + (body + "\"" + Hashes(hashes));
    AtParts(s, i, open, body + "\"" + Hashes(hashes));
    assert body + "\"" + Hashes(hashes) == body + ("\"" + Hashes(hashes));
    AtParts(s, i + |open|, body, "\"" + Hashes(hashes));
  }

  /** With more hashes than the window holds the reader does not see a literal at all. */
  lemma TooManyHashes(py: Python, s: string, i: nat, p: Prefix, hashes: nat, body: string)
    requires |Mark(p)| + hashes + 2 > WINDOW && At(s, i, Raw(p, hashes, body))
    ensures ReadString(py, s, i) == Failure(ValueError)
  {
    hide Find, Hashes, Unix, RawOpening;
    RawSplits(s, i, p, hashes, body);
    RawOpens(s, i, p, hashes);
  }

  // --- LF against CR LF ---------------------------------------------------------------------

  /** Every LF of the source turned into CR LF. */
  function Crlf(t: string): string {
    if t == "" then "" else (if t[0] == '\n' then "\r\n" else [t[0]]) + Crlf(t[1..])
  }

  predicate NoPair(t: string) {
    forall k :: 0 <= k < |t| - 1 ==> !(t[k] == '\r' && t[k + 1] == '\n')
  }

  lemma {:induction false} CrlfConcat(t: string, u: string)
    ensures Crlf(t + u) == Crlf(t) + Crlf(u)
    decreases |t|
  {
    if t == "" {
      assert t + u == u;
    } else {
      assert (t + u)[1..] == t[1..] + u;
      CrlfConcat(t[1..], u);
    }
  }

  lemma {:induction false} CrlfOfPlain(t: string)
    requires '\n' !in t
    ensures Crlf(t) == t
    decreases |t|
  {
    if t != "" {
      CrlfOfPlain(t[1..]);
    }
  }

  function CrlfItem(i: Item): Item {
    match i
    case Newline(_) => Newline(true)
    case Continue(_, blank) => Continue(true, Crlf(blank))
    case _ => i
  }

  function CrlfItems(items: seq<Item>): (r: seq<Item>)
    ensures |r| == |items|
  {
    if items == [] then [] else [CrlfItem(items[0])] + CrlfItems(items[1..])
  }

  /** No line in the literal ends in CR LF yet. */
  predicate LfOnly(items: seq<Item>) {
    forall k :: 0 <= k < |items| ==> (items[k].Newline? || items[k].Continue?) ==> !items[k].crlf
  }

  lemma {:induction false} BlankCrlf(blank: string)
    requires forall k :: 0 <= k < |blank| ==> Blankish(blank[k])
    ensures forall k :: 0 <= k < |Crlf(blank)| ==> Blankish(Crlf(blank)[k])
    decreases |blank|
  {
    if blank != "" {
      BlankCrlf(blank[1..]);
    }
  }

  lemma UnicodeOneLine(digits: string)
    requires RustDigits(digits)
    ensures '\n' !in Written(Unicode('{', digits))
  {
    assert '\n' !in digits;
  }

  lemma WrittenCrlf(i: Item)
    requires Wellformed(i) && ((i.Newline? || i.Continue?) ==> !i.crlf)
    ensures Crlf(Written(i)) == Written(CrlfItem(i))
  {
    hide RustDigits, Scalar, HexNumber;
    match i
    case Continue(_, blank) =>
      CrlfConcat("\\\n", blank);
      assert Written(i) == "\\\n" + blank;
      assert "\\\n" == "\\" + "\n";
      CrlfConcat("\\", "\n");
      CrlfOfPlain("\\");
      assert "\n"[1..] == "";
      assert Crlf("\n") == "\r\n";
    case Newline(_) =>
      assert "\n"[1..] == "";
    case Unicode(open, digits) =>
      UnicodeOneLine(digits);
      CrlfOfPlain(Written(i));
    case Byte(hi, lo) => CrlfOfPlain(['\\', 'x', hi, lo]);
    case Simple(letter) => CrlfOfPlain(['\\', letter]);
    case Plain(c) => CrlfOfPlain([c]);
  }

  lemma {:induction false} BodyCrlf(items: seq<Item>)
    requires Proper(items) && LfOnly(items)
    ensures Crlf(Body(items)) == Body(CrlfItems(items))
    decreases |items|
  {
    if items != [] {
      WrittenCrlf(items[0]);
      CrlfConcat(Written(items[0]), Body(items[1..]));
      BodyCrlf(items[1..]);
      assert CrlfItems(items)[1..] == CrlfItems(items[1..]);
    }
  }

  lemma FollowsCrlf(items: seq<Item>)
    requires Proper(items) && LfOnly(items)
    ensures Follows(CrlfItems(items))[0] == if Follows(items)[0] == '\n' then '\r' else Follows(items)[0]
    ensures Crlf(Follows(items)) == Follows(CrlfItems(items))
  {
    BodyCrlf(items);
    CrlfConcat(Body(items), "\"");
    CrlfOfPlain("\"");
  }

  lemma {:induction false} CrlfKeepsMeaning(items: seq<Item>)
    requires Proper(items) && LfOnly(items)
    ensures Proper(CrlfItems(items)) && Value(CrlfItems(items)) == Value(items)
    ensures AllSpaced(CrlfItems(items)) == AllSpaced(items)
    decreases |items|
  {
    if items != [] {
      var rest := items[1..];
      CrlfKeepsMeaning(rest);
      FollowsCrlf(rest);
      assert CrlfItems(items)[1..] == CrlfItems(rest);
      if items[0].Continue? {
        BlankCrlf(items[0].blank);
      }
    }
  }

  /** Turning every LF of the source into CR LF leaves an ordinary literal's value alone, continuations included. */
  lemma CrlfReadsTheSame(py: Python, before: string, p: Prefix, items: seq<Item>, after: string)
    requires Reads(py) && Proper(items) && LfOnly(items)
    ensures var s := before + Quoted(p, items) + after;
            && ReadString(py, s, |before|) == Outcome(items, |before + Quoted(p, items)|)
            && ReadString(py, Crlf(s), |Crlf(before)|) == Outcome(items, |Crlf(before + Quoted(p, items))|)
  {
    hide ReadString, Reads, Proper, Value, AllSpaced, Crlf, CrlfItems, LfOnly;
    var s := before + Quoted(p, items) + after;
    var q := Mark(p) + "\"";
    CrlfConcat(before + Quoted(p, items), after);
    CrlfConcat(before, Quoted(p, items));
    CrlfConcat(q, Follows(items));
    CrlfOfPlain(q);
    FollowsCrlf(items);
    CrlfKeepsMeaning(items);
    assert Quoted(p, items) == q + Follows(items);
    assert Quoted(p, CrlfItems(items)) == q + Follows(CrlfItems(items));
    Within(Crlf(before), Quoted(p, CrlfItems(items)), Crlf(after));
    OrdinaryReadsBack(py, Crlf(s), |Crlf(before)|, p, CrlfItems(items));
    Within(before, Quoted(p, items), after);
    OrdinaryReadsBack(py, s, |before|, p, items);
  }

  lemma {:induction false} UnixOfCrlf(t: string)
    requires NoPair(t)
    ensures Unix(Crlf(t)) == t == Unix(t)
    decreases |t|
  {
    if t != "" {
      var c, rest := t[0], t[1..];
      assert NoPair(rest) by {
        forall k | 0 <= k < |rest| - 1 ensures !(rest[k] == '\r' && rest[k + 1] == '\n') {
          assert rest[k] == t[k + 1] && rest[k + 1] == t[k + 2];
        }
      }
      UnixOfCrlf(rest);
      assert Crlf(t) == (if c == '\n' then "\r\n" else [c]) + Crlf(rest);
      if c == '\n' {
        assert Crlf(t)[2..] == Crlf(rest);
      } else {
        assert Crlf(t)[1..] == Crlf(rest);
        if c == '\r' && rest != "" {
          assert t[0] == '\r' && t[1] == rest[0];
          assert Crlf(rest)[0] != '\n';
        }
      }
    }
  }

  /** Enough hashes for a body are enough for its CR LF form. */
  lemma {:induction false} EnclosesCrlf(hashes: nat, body: string)
    requires Encloses(hashes, body)
    ensures Encloses(hashes, Crlf(body))
    decreases |body|
  {
    hide ClosesAt;
    if body != "" {
      var rest := body[1..];
      assert body == [body[0]] + rest;
      forall k: nat | k < |rest| ensures !ClosesAt(hashes, rest, k) {
        ClosesLater(hashes, [body[0]], rest, k);
      }
      EnclosesCrlf(hashes, rest);
      var head := if body[0] == '\n' then "\r\n" else [body[0]];
      assert Crlf(body) == head + Crlf(rest);
      forall k: nat | k < |Crlf(body)| ensures !ClosesAt(hashes, Crlf(body), k) {
        if k >= |head| {
          ClosesLater(hashes, head, Crlf(rest), k - |head|);
        } else {
          if ClosesAt(hashes, Crlf(body), k) {
            ClosesFirst(hashes, body, k);
          }
        }
      }
    }
  }

  lemma CrlfHead(body: string)
    requires body != ""
    ensures body[0] == '\n' ==> |Crlf(body)| >= 2 && Crlf(body)[0] == '\r' && Crlf(body)[1] == '\n'
    ensures body[0] != '\n' ==> Crlf(body) == [body[0]] + Crlf(body[1..])
  {
  }

  /** Where the CR LF form would close its literal at its first character, the body itself would. */
  lemma ClosesFirst(hashes: nat, body: string, k: nat)
    requires body != "" && k < (if body[0] == '\n' then 2 else 1) && ClosesAt(hashes, Crlf(body), k)
    ensures ClosesAt(hashes, body, 0)
  {
    hide Crlf, Hashes, At;
    var rest, close := body[1..], "\"" + Hashes(hashes);
    CrlfHead(body);
    AtParts(Crlf(body) + "\"" + Hashes(hashes), k, "\"", Hashes(hashes));
    AtChar(Crlf(body) + "\"" + Hashes(hashes), k, "\"", 0);
    assert Crlf(body)[k] == '"';
    assert body == "\"" + rest;
    assert Crlf(body) + "\"" + Hashes(hashes) == "\"" + (Crlf(rest) + close);
    CloseBehindQuote(hashes, rest, close);
    assert body + "\"" + Hashes(hashes) == "\"" + (rest + close);
  }

  lemma CloseBehindQuote(hashes: nat, rest: string, close: string)
    requires close == "\"" + Hashes(hashes) && At("\"" + (Crlf(rest) + close), 0, close)
    ensures At("\"" + (rest + close), 0, close)
  {
    hide Crlf, Hashes, At;
    AtParts("\"" + (Crlf(rest) + close), 0, "\"", Hashes(hashes));
    AtShift("\"", Crlf(rest) + close, 0, Hashes(hashes));
    HashesStayHashes(hashes, rest, close);
    AtShift("\"", rest + close, 0, Hashes(hashes));
    Within("", "\"", rest + close);
    assert "" + "\"" + (rest + close) == "\"" + (rest + close);
    AtParts("\"" + (rest + close), 0, "\"", Hashes(hashes));
  }

  /** If the CR LF form of a text starts with the hashes, so does the text. */
  lemma {:induction false} HashesStayHashes(n: nat, rest: string, tail: string)
    requires At(Crlf(rest) + tail, 0, Hashes(n))
    ensures At(rest + tail, 0, Hashes(n))
    decreases n
  {
    if rest == "" {
      assert rest + tail == tail == Crlf(rest) + tail;
    } else if n > 0 {
      var whole := Crlf(rest) + tail;
      AtChar(whole, 0, Hashes(n), 0);
      assert rest[0] == '#';
      var less := Crlf(rest[1..]) + tail;
      assert whole == "#" + less && Hashes(n) == "#" + Hashes(n - 1);
      AtParts(whole, 0, "#", Hashes(n - 1));
      AtShift("#", less, 0, Hashes(n - 1));
      HashesStayHashes(n - 1, rest[1..], tail);
      assert rest + tail == "#" + (rest[1..] + tail);
      AtShift("#", rest[1..] + tail, 0, Hashes(n - 1));
      AtParts(rest + tail, 0, "#", Hashes(n - 1));
    }
  }

  lemma OneLine(p: Prefix, hashes: nat)
    ensures Crlf(Mark(p) + "r" + Hashes(hashes) + "\"") == Mark(p) + "r" + Hashes(hashes) + "\""
    ensures Crlf("\"" + Hashes(hashes)) == "\"" + Hashes(hashes)
  {
    var hashing := Hashes(hashes);
    assert '\n' !in hashing;
    CrlfOfPlain("\"" + hashing);
    CrlfOfPlain(Mark(p) + "r" + hashing + "\"");
  }

  /** A raw literal's value, whose body has no CR LF to begin with, is left alone too. */
  lemma RawCrlfReadsTheSame(py: Python, before: string, p: Prefix, hashes: nat, body: string, after: string)
    requires Encloses(hashes, body) && |Mark(p)| + hashes + 2 <= WINDOW && NoPair(body)
    ensures var s := before + Raw(p, hashes, body) + after;
            && ReadString(py, s, |before|) == Success(Literal(Coded(body), |before + Raw(p, hashes, body)|))
            && ReadString(py, Crlf(s), |Crlf(before)|)
                == Success(Literal(Coded(body), |Crlf(before + Raw(p, hashes, body))|))
  {
    hide ReadString, Crlf, Mark, Hashes, Encloses, NoPair, Unix;
    var s := before + Raw(p, hashes, body) + after;
    var open, close := Mark(p) + "r" + Hashes(hashes) + "\"", "\"" + Hashes(hashes);
    assert Raw(p, hashes, body) == open + (body + close);
    assert Raw(p, hashes, Crlf(body)) == open + (Crlf(body) + close);
    CrlfConcat(before + Raw(p, hashes, body), after);
    CrlfConcat(before, Raw(p, hashes, body));
    CrlfConcat(open, body + close);
    CrlfConcat(body, close);
    OneLine(p, hashes);
    UnixOfCrlf(body);
    EnclosesCrlf(hashes, body);
    Within(before, Raw(p, hashes, body), after);
    RawReadsBack(py, s, |before|, p, hashes, body);
    Within(Crlf(before), Raw(p, hashes, Crlf(body)), Crlf(after));
    RawReadsBack(py, Crlf(s), |Crlf(before)|, p, hashes, Crlf(body));
  }

  // --- More is read than Rust writes ------------------------------------------------------

  const LOOSE: string := "\"\\u_41}\""

  /** The script skips what stands where the brace should, so it reads a literal that is none. */
  lemma LooseEscapeIsRead(py: Python)
    requires py.int16("41") == Some(0x41)
    ensures ReadString(py, LOOSE, 0) == Success(Literal(Coded("A"), 8))
  {
    NotRaw(LOOSE, 0);
    assert |LOOSE| == 8 && LOOSE[0] == '"' && LOOSE[1] == '\\' && LOOSE[2] == 'u' && LOOSE[6] == '}' && LOOSE[7] == '"';
    forall k | 1 <= k < 6 ensures !At(LOOSE, k, "}") {
      AtOne(LOOSE, k, '}');
    }
    AtOne(LOOSE, 6, '}');
    FoundAt(LOOSE, "}", 1, 6);
    assert Slice(LOOSE, 4, 6) == "41";
    assert TurnAt(py, LOOSE, 1) == Turn(Coded("A"), 7);
    assert TurnAt(py, LOOSE, 7) == Close;
    assert [] + Coded("A") == Coded("A");
  }

  lemma BraceFollows(items: seq<Item>)
    requires Proper(items)
    ensures var t := Follows(items); |t| >= 3 && t[0] == '\\' && t[1] == 'u' ==> t[2] == '{'
  {
    if items != [] {
      var t, w := Follows(items), Written(items[0]);
      assert t == w + (Body(items[1..]) + "\"");
      assert forall k :: 0 <= k < |w| ==> t[k] == w[k];
    }
  }

  lemma LooseIsNoLiteral(p: Prefix, items: seq<Item>)
    requires Proper(items)
    ensures Quoted(p, items) != LOOSE
  {
    BraceFollows(items);
    var t, q := Follows(items), Quoted(p, items);
    if p == Bare {
      assert |q| == |t| + 1 && forall k :: 0 <= k < |t| ==> q[k + 1] == t[k];
    } else {
      assert q[0] != '"';
    }
    assert LOOSE[1] == '\\' && LOOSE[2] == 'u' && LOOSE[3] == '_' && |LOOSE| == 8;
  }
}
