/**
 The string primitives the dispatcher relies on, written out over `seq<char>`:
 Python's `str.replace`, `str.upper`, `str.lstrip(c)`, `str.strip()`,
 `str.split('\n')` and an ASCII case-insensitive substring test.
 */
module Strings {

  /** Python's `str.isspace()` characters, the set `str.strip()` removes. */
  predicate IsSpace(c: char)
  {
    || ('\t' <= c <= '\r')                 // tab, line feed, vertical tab, form feed, carriage return
    || ('\U{001C}' <= c <= ' ')             // the four separators and the space
    || ('\U{0085}' <= c && IsWideSpace(c))
  }

  /** The whitespace characters outside ASCII. */
  predicate IsWideSpace(c: char)
  {
    || c == '\U{0085}' || c == '\U{00A0}' || c == '\U{1680}'
    || ('\U{2000}' <= c <= '\U{200A}')
    || c == '\U{2028}' || c == '\U{2029}' || c == '\U{202F}' || c == '\U{205F}' || c == '\U{3000}'
  }

  function ToUpper(c: char): char
  {
    if 'a' <= c <= 'z' then (c as int - 32) as char else c
  }

  function ToLower(c: char): char
  {
    if 'A' <= c <= 'Z' then (c as int + 32) as char else c
  }

  /** `s.replace(target, replacement)` for single characters. */
  function Replace(s: string, target: char, replacement: char): (r: string)
    ensures |r| == |s|
    ensures forall i :: 0 <= i < |s| ==> r[i] == if s[i] == target then replacement else s[i]
  {
    seq(|s|, i requires 0 <= i < |s| => if s[i] == target then replacement else s[i])
  }

  /** `s.upper()`, ASCII letters only. */
  function Upper(s: string): (r: string)
    ensures |r| == |s|
    ensures forall i :: 0 <= i < |s| ==> r[i] == ToUpper(s[i])
  {
    seq(|s|, i requires 0 <= i < |s| => ToUpper(s[i]))
  }

  /** The first index from `i` on that does not hold `c`, or `|s|`. */
  function SkipChar(s: string, c: char, i: nat): (j: nat)
    requires i <= |s|
    ensures i <= j <= |s|
    ensures forall k :: i <= k < j ==> s[k] == c
    ensures j < |s| ==> s[j] != c
    decreases |s| - i
  {
    if i < |s| && s[i] == c then SkipChar(s, c, i + 1) else i
  }

  /** `s.lstrip(c)`: what is left after every leading `c` is dropped. */
  function LStrip(s: string, c: char): (r: string)
    ensures |r| <= |s| && r == s[|s| - |r|..]
    ensures forall i :: 0 <= i < |s| - |r| ==> s[i] == c
    ensures r != [] ==> r[0] != c
  {
    s[SkipChar(s, c, 0)..]
  }

  /** The first index from `i` on that holds no whitespace, or `|s|`. */
  function TextStart(s: string, i: nat): (a: nat)
    requires i <= |s|
    ensures i <= a <= |s|
    ensures forall k :: i <= k < a ==> IsSpace(s[k])
    ensures a < |s| ==> !IsSpace(s[a])
    decreases |s| - i
  {
    if i < |s| && IsSpace(s[i]) then TextStart(s, i + 1) else i
  }

  /** The index just past the last non-whitespace character before `e`, and no lower than `lo`. */
  function TextEnd(s: string, lo: nat, e: nat): (b: nat)
    requires lo <= e <= |s|
    ensures lo <= b <= e
    ensures forall k :: b <= k < e ==> IsSpace(s[k])
    ensures b > lo ==> !IsSpace(s[b - 1])
    decreases e - lo
  {
    if e > lo && IsSpace(s[e - 1]) then TextEnd(s, lo, e - 1) else e
  }

  /**
   `s.strip()`: the slice of `s` that starts at some offset `a`, with only
   whitespace before and after it and whitespace on neither of its ends.
   */
  function Strip(s: string): (r: string)
    ensures exists a :: 0 <= a <= |s| - |r| && r == s[a..][..|r|]
                        && (forall i :: 0 <= i < a ==> IsSpace(s[i]))
                        && (forall i :: a + |r| <= i < |s| ==> IsSpace(s[i]))
    ensures Stripped(r)
  {
    var a := TextStart(s, 0);
    var b := TextEnd(s, a, |s|);
    var r := s[a..b];
    assert r == s[a..][..|r|];
    r
  }

  /** `s.split('\n')`: always at least one piece, none holding a newline. */
  function Lines(s: string): (r: seq<string>)
    ensures |r| >= 1
    ensures forall i :: 0 <= i < |r| ==> '\n' !in r[i]
  {
    if s == [] then [""]
    else if s[0] == '\n' then [""] + Lines(s[1..])
    else
      var rest := Lines(s[1..]);
      [[s[0]] + rest[0]] + rest[1..]
  }

  /** `'\n'.join(ls)`. */
  function JoinLines(ls: seq<string>): string
    requires |ls| >= 1
  {
    if |ls| == 1 then ls[0] else ls[0] + "\n" + JoinLines(ls[1..])
  }

  /** Joining the pieces of a split gives back the text. */
  lemma {:induction false} JoinLinesOfLines(s: string)
    ensures JoinLines(Lines(s)) == s
  {
    if s == [] {
    } else {
      var tail := s[1..];
      var rest := Lines(tail);
      JoinLinesOfLines(tail);
      assert s == [s[0]] + tail;
      if s[0] == '\n' {
        var ls := [""] + rest;
        assert Lines(s) == ls && ls[1..] == rest;
        assert JoinLines(ls) == "" + "\n" + JoinLines(rest);
      } else {
        var ls := [[s[0]] + rest[0]] + rest[1..];
        assert Lines(s) == ls && ls[1..] == rest[1..];
        if |rest| == 1 {
          assert JoinLines(rest) == rest[0];
          assert JoinLines(ls) == [s[0]] + rest[0];
        } else {
          var more := JoinLines(rest[1..]);
          assert JoinLines(rest) == rest[0] + "\n" + more;
          assert JoinLines(ls) == ([s[0]] + rest[0]) + "\n" + more;
          assert ([s[0]] + rest[0]) + "\n" + more == [s[0]] + (rest[0] + "\n" + more);
        }
      }
    }
  }

  /** Splitting after a newline-free first line gives that line, then the split of the rest. */
  lemma {:induction false} LinesAfterLine(line: string, rest: string)
    requires '\n' !in line
    ensures Lines(line + "\n" + rest) == [line] + Lines(rest)
  {
    var s := line + "\n" + rest;
    if line == [] {
      assert s == "\n" + rest;
      assert s[1..] == rest;
    } else {
      assert s[1..] == line[1..] + "\n" + rest;
      LinesAfterLine(line[1..], rest);
      assert s[0] == line[0];
      assert [line[0]] + line[1..] == line;
    }
  }

  /** The text before the first newline. */
  function FirstLine(s: string): (r: string)
    ensures |r| <= |s| && r == s[..|r|] && '\n' !in r
    ensures |r| < |s| ==> s[|r|] == '\n'
  {
    if s == [] || s[0] == '\n' then [] else [s[0]] + FirstLine(s[1..])
  }

  /** The first line of `s` extends every newline-free prefix of `s`. */
  lemma {:induction false} FirstLineCovers(s: string, n: nat)
    requires n <= |s| && forall j :: 0 <= j < n ==> s[j] != '\n'
    ensures n <= |FirstLine(s)|
  {
    if n > 0 {
      FirstLineCovers(s[1..], n - 1);
    }
  }

  /** `t` occurs in `s` at index `i`, letters compared ignoring ASCII case. */
  predicate MatchesAt(s: string, t: string, i: int)
    requires 0 <= i && i + |t| <= |s|
  {
    forall j :: 0 <= j < |t| ==> ToLower(s[i + j]) == ToLower(t[j])
  }

  /** `t` occurs somewhere in `s`, ignoring ASCII case. */
  predicate ContainsFolded(s: string, t: string)
  {
    exists i :: 0 <= i <= |s| - |t| && MatchesAt(s, t, i)
  }

  /** A string with whitespace on neither end. */
  predicate Stripped(s: string)
  {
    s != [] ==> !IsSpace(s[0]) && !IsSpace(s[|s| - 1])
  }

  /** Characters equal up to ASCII case are both whitespace or neither. */
  lemma FoldingKeepsSpace(c: char, d: char)
    requires ToLower(c) == ToLower(d)
    ensures IsSpace(c) <==> IsSpace(d)
  {
  }

  /**
   Stripping keeps every character between two non-space characters: the
   stripped text is the slice from some offset `a` at or before `lo`, and
   reaches past `hi`.
   */
  lemma StripWindow(s: string, lo: nat, hi: nat) returns (a: nat)
    requires lo < hi <= |s| && !IsSpace(s[lo]) && !IsSpace(s[hi - 1])
    ensures a <= lo && hi <= a + |Strip(s)| <= |s|
    ensures forall j :: 0 <= j < |Strip(s)| ==> Strip(s)[j] == s[a + j]
  {
    a := TextStart(s, 0);
    var b := TextEnd(s, a, |s|);
    assert Strip(s) == s[a..b];
  }

  /**
   Stripping a block whose first line contains `name` keeps the name on
   the first line, as long as the name neither starts nor ends with
   whitespace.
   */
  lemma LabelSurvivesStrip(block: string, header: string, name: string)
    requires |header| <= |block| && block[..|header|] == header && '\n' !in header
    requires ContainsFolded(header, name)
    requires name != [] && !IsSpace(name[0]) && !IsSpace(name[|name| - 1])
    ensures ContainsFolded(FirstLine(Strip(block)), name)
  {
    var p :| 0 <= p <= |header| - |name| && MatchesAt(header, name, p);
    var n := |name|;
    FoldingKeepsSpace(header[p], name[0]);
    FoldingKeepsSpace(header[p + n - 1], name[n - 1]);
    assert block[p] == header[p] && block[p + n - 1] == header[p + n - 1];
    var a := StripWindow(block, p, p + n);
    var r := Strip(block);
    forall j | 0 <= j < p + n - a ensures r[j] != '\n' {
      assert r[j] == block[a + j] == header[a + j];
    }
    FirstLineCovers(r, p + n - a);
    var f := FirstLine(r);
    forall j | 0 <= j < n ensures ToLower(f[p - a + j]) == ToLower(name[j]) {
      assert f[p - a + j] == r[p - a + j] == block[p + j] == header[p + j];
    }
    assert MatchesAt(f, name, p - a);
  }
}
