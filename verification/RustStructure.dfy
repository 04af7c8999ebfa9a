/**
 Blanking: comments and the insides of literals become spaces, so that brackets,
 commas and semicolons can be read off the text by position.
 */
module RustTokens {
  import opened PyText
  import opened RustLiterals
  import opened Wrappers

  type Skip = Result<Option<nat>, Error>

  predicate Wordy(py: Python, c: char) { py.alnum(c) || c == '_' }

  /** The script's walk through a block comment, which nests: the index past it, or the end of the text. */
  function CommentEnd(s: string, k: nat, depth: int): (end: nat)
    requires k <= |s|
    ensures k <= end <= |s| && (At(s, k, "/*") ==> k < end)
    decreases |s| - k
  {
    if k == |s| then |s|
    else if At(s, k, "/*") then CommentEnd(s, k + 2, depth + 1)
    else if At(s, k, "*/") then
      if depth - 1 == 0 then k + 2 else CommentEnd(s, k + 2, depth - 1)
    else CommentEnd(s, k + 1, depth)
  }

  function LineEndFrom(s: string, j: nat): (k: nat)
    requires j <= |s|
    ensures j <= k <= |s| && (j < |s| && s[j] != '\n' ==> j < k)
  {
    var nl := Find(s, "\n", j);
    AtOne(s, j, '\n');
    if nl.Some? then nl.value else |s|
  }

  function CountHex(s: string, j: nat, most: nat): (n: nat)
    requires j <= |s|
    ensures n <= most && j + n <= |s| && forall k :: j <= k < j + n ==> HexDigit(s[k])
    ensures n < most && j + n < |s| ==> !HexDigit(s[j + n])
    decreases most
  {
    if most > 0 && j < |s| && HexDigit(s[j]) then 1 + CountHex(s, j + 1, most - 1) else 0
  }

  /** What may stand between the quotes of a char literal that starts with a backslash at `q`: its end. */
  function CharEscape(s: string, q: nat): (r: Option<nat>)
    requires q < |s|
    ensures r.Some? ==> q + 2 <= r.value && At(s, r.value, "'")
  {
    if q + 4 < |s| && s[q + 1] == 'x' && HexDigit(s[q + 2]) && HexDigit(s[q + 3]) && s[q + 4] == '\'' then Some(q + 4)
    else
      var h := if q + 3 <= |s| && s[q + 1] == 'u' && s[q + 2] == '{' then CountHex(s, q + 3, 6) else 0;
      if h > 0 && q + 4 + h < |s| && s[q + 3 + h] == '}' && s[q + 4 + h] == '\'' then Some(q + 4 + h)
      else if q + 2 < |s| && s[q + 1] != '\n' && s[q + 2] == '\'' then Some(q + 2)
      else None
  }

  /** The script's pattern for a char or byte literal at `j`: the index past it. */
  function CharToken(s: string, j: nat): (r: Option<nat>)
    requires j < |s|
    ensures r.Some? ==> j + 3 <= r.value <= |s|
  {
    var q := if s[j] == 'b' then j + 1 else j;
    if q + 2 >= |s| || s[q] != '\'' then None
    else if s[q + 1] == '\\' then
      var end := CharEscape(s, q + 1);
      if end.Some? then Some(end.value + 1) else None
    else if s[q + 1] != '\'' && s[q + 1] != '\n' && s[q + 2] == '\'' then Some(q + 3)
    else None
  }

  predicate LiteralMayStart(py: Python, s: string, j: nat)
    requires j < |s|
  {
    || s[j] == '"' || s[j] == '\''
    || ((s[j] == 'b' || s[j] == 'r' || s[j] == 'c') && !(j > 0 && Wordy(py, s[j - 1])))
  }

  function LiteralEnd(py: Python, s: string, j: nat): (r: Skip)
    requires j < |s|
    ensures r.Success? && r.value.Some? ==> j + 2 <= r.value.value <= |s|
  {
    match RawOpening(s, j)
    case Some(o) =>
      var end := Find(s, "\"" + Hashes(o.hashes), j + o.length);
      if end.None? then Failure(ValueError) else Success(Some(end.value + 1 + o.hashes))
    case None =>
      if s[j] == '"' || ((s[j] == 'b' || s[j] == 'c') && j + 1 < |s| && s[j + 1] == '"') then
        var read := ReadString(py, s, if s[j] == '"' then j else j + 1);
        if read.Failure? then Failure(read.error) else Success(Some(read.value.end))
      else Success(CharToken(s, j))
  }

  predicate CommentAt(s: string, j: nat) { At(s, j, "//") || At(s, j, "/*") }

  /** The index past the comment or literal that starts at `j`; None when none does. */
  function SkipToken(py: Python, s: string, j: nat): (r: Skip)
    requires j < |s|
    ensures r.Success? && r.value.Some? ==> j < r.value.value <= |s| && (CommentAt(s, j) || j + 2 <= r.value.value)
  {
    if At(s, j, "//") then
      AtChar(s, j, "//", 0);
      Success(Some(LineEndFrom(s, j)))
    else if At(s, j, "/*") then Success(Some(CommentEnd(s, j, 0)))
    else if LiteralMayStart(py, s, j) then LiteralEnd(py, s, j)
    else Success(None)
  }

  function Spaces(t: string): (r: string)
    ensures |r| == |t|
  {
    seq(|t|, k requires 0 <= k < |t| => if t[k] == '\r' || t[k] == '\n' then t[k] else ' ')
  }

  /** Kept, or a space in place of anything but a line break. */
  predicate Same(b: char, c: char) { b == c || (b == ' ' && c != '\r' && c != '\n') }

  /** A comment is spaces throughout; of a literal the first and the last character stay. */
  function Blanked(s: string, j: nat, k: nat): (r: string)
    requires j < k <= |s| && (CommentAt(s, j) || j + 2 <= k)
    ensures |r| == k - j
    ensures forall i :: 0 <= i < k - j ==> Same(r[i], s[j + i])
  {
    if CommentAt(s, j) then Spaces(s[j..k]) else [s[j]] + Spaces(s[j + 1..k - 1]) + [s[k - 1]]
  }

  /** Where the scan goes on from `j`, and what it leaves there. */
  function Past(j: nat, k: Option<nat>): nat { if k.Some? then k.value else j + 1 }

  function Head(s: string, j: nat, k: Option<nat>): (r: string)
    requires j < Past(j, k) <= |s| && (k.Some? ==> CommentAt(s, j) || j + 2 <= k.value)
    ensures |r| == Past(j, k) - j
    ensures forall i :: 0 <= i < |r| ==> Same(r[i], s[j + i])
  {
    if k.Some? then Blanked(s, j, k.value) else [s[j]]
  }

  function After(head: string, rest: Result<string, Error>): Result<string, Error> {
    if rest.Failure? then rest else Success(head + rest.value)
  }

  /** The text from `j` on, blanked: as long as it was, every line break in place, anything else kept or a space. */
  function BlankFrom(py: Python, s: string, j: nat): (r: Result<string, Error>)
    requires j <= |s|
    ensures r.Success? ==> |r.value| == |s| - j
    ensures r.Success? ==> forall i :: 0 <= i < |s| - j ==> Same(r.value[i], s[j + i])
    decreases |s| - j
  {
    if j == |s| then Success("")
    else
      var k := SkipToken(py, s, j);
      if k.Failure? then Failure(k.error)
      else
        After(Head(s, j, k.value), BlankFrom(py, s, Past(j, k.value)))
  }

  // --- The script's loops --------------------------------------------------------------

  method SkipComment(s: string, j: nat) returns (k: nat)
    requires At(s, j, "/*")
    ensures k == CommentEnd(s, j, 0)
  {
    var depth := 0;
    k := j;
    while k < |s|
      invariant j <= k <= |s|
      invariant CommentEnd(s, k, depth) == CommentEnd(s, j, 0)
      decreases |s| - k
    {
      if At(s, k, "/*") {
        depth := depth + 1;
        k := k + 2;
      } else if At(s, k, "*/") {
        depth := depth - 1;
        k := k + 2;
        if depth == 0 {
          return;
        }
      } else {
        k := k + 1;
      }
    }
  }

  method SkipTokenAt(py: Python, s: string, j: nat) returns (r: Skip)
    requires j < |s|
    ensures r == SkipToken(py, s, j)
  {
    hide ReadString, CharToken, RawOpening, Find, Hashes;
    if At(s, j, "//") {
      AtChar(s, j, "//", 0);
      return Success(Some(LineEndFrom(s, j)));
    }
    if At(s, j, "/*") {
      var k := SkipComment(s, j);
      return Success(Some(k));
    }
    if LiteralMayStart(py, s, j) {
      var raw := RawOpening(s, j);
      if raw.Some? {
        var end := Find(s, "\"" + Hashes(raw.value.hashes), j + raw.value.length);
        return if end.None? then Failure(ValueError) else Success(Some(end.value + 1 + raw.value.hashes));
      }
      if s[j] == '"' || ((s[j] == 'b' || s[j] == 'c') && j + 1 < |s| && s[j + 1] == '"') {
        var read := ReadLiteral(py, s, if s[j] == '"' then j else j + 1);
        return if read.Failure? then Failure(read.error) else Success(Some(read.value.end));
      }
      return Success(CharToken(s, j));
    }
    r := Success(None);
  }

  /** The range set to spaces in place, line breaks kept. */
  method BlankRange(out: array<char>, lo: nat, hi: nat)
    requires lo <= hi <= out.Length
    modifies out
    ensures out[..] == old(out[..])[..lo] + Spaces(old(out[..])[lo..hi]) + old(out[..])[hi..]
  {
    var q := lo;
    while q < hi
      invariant lo <= q <= hi
      invariant forall i :: 0 <= i < out.Length && !(lo <= i < q) ==> out[i] == old(out[i])
      invariant forall i :: lo <= i < q ==>
                  out[i] == if old(out[i]) == '\r' || old(out[i]) == '\n' then old(out[i]) else ' '
    {
      if out[q] != '\r' && out[q] != '\n' {
        out[q] := ' ';
      }
      q := q + 1;
    }
  }

  /** One turn of the script's loop: the token at `j`, if any, blanked in place. */
  method BlankOne(py: Python, out: array<char>, s: string, j: nat, ghost done: string) returns (k: Skip)
    requires j < |s| && |done| == j && out[..] == done + s[j..]
    modifies out
    ensures k == SkipToken(py, s, j)
    ensures k.Success? ==> out[..] == done + Head(s, j, k.value) + s[Past(j, k.value)..]
  {
    hide SkipToken, Blanked, CommentAt;
    k := SkipTokenAt(py, s, j);
    if k.Success? && k.value.Some? {
      var comment := CommentAt(s, j);
      var next := k.value.value;
      var lo, hi := if comment then j else j + 1, if comment then next else next - 1;
      InPlace(s, j, next, done, out[..], lo, hi);
      BlankRange(out, lo, hi);
    } else {
      assert done + [s[j]] + s[j + 1..] == done + s[j..];
    }
  }

  method Blank(py: Python, s: string) returns (r: Result<string, Error>)
    ensures r == BlankFrom(py, s, 0)
  {
    var out := new char[|s|](i requires 0 <= i < |s| => s[i]);
    var j := 0;
    ghost var done := "";
    assert out[..] == done + s[j..];
    StartOfText(py, s);
    hide BlankFrom, SkipToken, Head, After, CommentAt;
    while j < |s|
      invariant 0 <= j <= |s| && out.Length == |s| && |done| == j
      invariant out[..] == done + s[j..]
      invariant BlankFrom(py, s, 0) == After(done, BlankFrom(py, s, j))
      decreases |s| - j
    {
      var k := BlankOne(py, out, s, j, done);
      BlankStep(py, s, j, done);
      if k.Failure? {
        return Failure(k.error);
      }
      done := done + Head(s, j, k.value);
      j := Past(j, k.value);
    }
    EndOfText(py, s, done);
    assert out[..] == done;
    r := Success(out[..]);
  }

  lemma StartOfText(py: Python, s: string)
    ensures BlankFrom(py, s, 0) == After("", BlankFrom(py, s, 0))
  {
    var r := BlankFrom(py, s, 0);
    if r.Success? {
      assert "" + r.value == r.value;
    }
  }

  lemma NothingLeft(py: Python, s: string)
    ensures BlankFrom(py, s, |s|) == Success("")
  {
  }

  lemma EndOfText(py: Python, s: string, done: string)
    ensures After(done, BlankFrom(py, s, |s|)) == Success(done)
  {
    assert done + "" == done;
  }

  lemma BlankStep(py: Python, s: string, j: nat, done: string)
    requires j < |s|
    ensures var k := SkipToken(py, s, j);
            After(done, BlankFrom(py, s, j)) ==
            if k.Failure? then Failure(k.error)
            else After(done + Head(s, j, k.value), BlankFrom(py, s, Past(j, k.value)))
  {
    hide SkipToken, Head;
    var k := SkipToken(py, s, j);
    if k.Success? {
      var rest := BlankFrom(py, s, Past(j, k.value));
      if rest.Success? {
        assert done + (Head(s, j, k.value) + rest.value) == done + Head(s, j, k.value) + rest.value;
      }
    }
  }

  /** What the in-place range comes to. */
  lemma InPlace(s: string, j: nat, k: nat, done: string, out: string, lo: nat, hi: nat)
    requires j < k <= |s| && (CommentAt(s, j) || j + 2 <= k) && |done| == j && out == done + s[j..]
    requires lo == (if CommentAt(s, j) then j else j + 1) && hi == if CommentAt(s, j) then k else k - 1
    ensures lo <= hi <= |out|
    ensures out[..lo] + Spaces(out[lo..hi]) + out[hi..] == done + Blanked(s, j, k) + s[k..]
  {
    hide CommentAt;
    assert forall i :: j <= i < |out| ==> out[i] == s[i];
    assert out[lo..hi] == s[lo..hi];
    assert out[hi..] == s[hi..];
    if !CommentAt(s, j) {
      assert out[..lo] == done + [s[j]];
      assert s[hi..] == [s[k - 1]] + s[k..];
    } else {
      assert out[..lo] == done;
    }
  }
}
