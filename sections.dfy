/**
 `parse_section(name, source)`: the blocks of a help text that belong to a
 labelled section. The source matches, line by line, a header line that
 contains `name` (ignoring case) together with the lines right after it that
 start with a space or a tab, and returns each such block stripped.
 */
module Sections {
  import opened Strings

  /** A continuation line: it starts with a space or a tab. */
  predicate Indented(line: string)
  {
    line != [] && (line[0] == ' ' || line[0] == '\t')
  }

  /** The index just past the run of indented lines that starts at `i`. */
  function BlockEnd(lines: seq<string>, i: nat): (j: nat)
    requires i <= |lines|
    ensures i <= j <= |lines|
    ensures forall k :: i <= k < j ==> Indented(lines[k])
    ensures j == |lines| || !Indented(lines[j])
    decreases |lines| - i
  {
    if i < |lines| && Indented(lines[i]) then BlockEnd(lines, i + 1) else i
  }

  /** Some line from `i` on contains `name`, ignoring case. */
  predicate Mentioned(name: string, lines: seq<string>, i: nat)
  {
    exists k :: i <= k < |lines| && ContainsFolded(lines[k], name)
  }

  /** The entry a header at line `h` opens: it and the indented lines after it, joined and stripped. */
  function Entry(lines: seq<string>, h: nat): string
    requires h < |lines|
  {
    Strip(JoinLines(lines[h..BlockEnd(lines, h + 1)]))
  }

  /**
   The entries found from line `i` on: a line containing `name` opens a
   block, the block takes the indented lines after it, and scanning resumes
   after the block. There are no more entries than lines, each is stripped,
   and there are none exactly when no line from `i` on contains `name`.
   */
  function Scan(name: string, lines: seq<string>, i: nat): (r: seq<string>)
    requires i <= |lines|
    ensures |r| <= |lines| - i
    ensures forall k :: 0 <= k < |r| ==> Stripped(r[k])
    ensures r != [] <==> Mentioned(name, lines, i)
    decreases |lines| - i
  {
    if i == |lines| then []
    else if ContainsFolded(lines[i], name) then
      [Entry(lines, i)] + Scan(name, lines, BlockEnd(lines, i + 1))
    else
      Scan(name, lines, i + 1)
  }

  /** The entries of the section labelled `name` in `source`, in order. */
  function ParseSection(name: string, source: string): (r: seq<string>)
    ensures forall k :: 0 <= k < |r| ==> Stripped(r[k])
    ensures r != [] <==> Mentioned(name, Lines(source), 0)
  {
    Scan(name, Lines(source), 0)
  }

  /** A joined block starts with its first line, which holds no newline. */
  lemma JoinStartsWithHead(ls: seq<string>)
    requires |ls| >= 1
    ensures |ls[0]| <= |JoinLines(ls)| && JoinLines(ls)[..|ls[0]|] == ls[0]
  {
  }

  /**
   Every entry found from line `i` on has the label on its first line, when
   the label neither starts nor ends with whitespace.
   */
  lemma {:induction false} ScanEntriesNamed(name: string, lines: seq<string>, i: nat)
    requires i <= |lines|
    requires forall k :: 0 <= k < |lines| ==> '\n' !in lines[k]
    requires name != [] && !IsSpace(name[0]) && !IsSpace(name[|name| - 1])
    ensures forall k :: 0 <= k < |Scan(name, lines, i)| ==> ContainsFolded(FirstLine(Scan(name, lines, i)[k]), name)
    decreases |lines| - i
  {
    if i < |lines| {
      if ContainsFolded(lines[i], name) {
        var j := BlockEnd(lines, i + 1);
        JoinStartsWithHead(lines[i..j]);
        LabelSurvivesStrip(JoinLines(lines[i..j]), lines[i], name);
        ScanEntriesNamed(name, lines, j);
      } else {
        ScanEntriesNamed(name, lines, i + 1);
      }
    }
  }

  /**
   Each entry of a section has the section's label on its first line
   (compared ignoring ASCII case), for a label such as `commands:` that
   neither starts nor ends with whitespace.
   */
  lemma SectionEntriesNamed(name: string, source: string)
    requires name != [] && !IsSpace(name[0]) && !IsSpace(name[|name| - 1])
    ensures forall k :: 0 <= k < |ParseSection(name, source)| ==> ContainsFolded(FirstLine(ParseSection(name, source)[k]), name)
  {
    ScanEntriesNamed(name, Lines(source), 0);
  }

  /** `e` is the entry of some line at or after `i` that contains `name`. */
  ghost predicate BlockFrom(name: string, lines: seq<string>, i: nat, e: string)
  {
    exists h :: i <= h < |lines| && ContainsFolded(lines[h], name) && e == Entry(lines, h)
  }

  /** Every entry found from line `i` on is the block of some labelled line at or after `i`. */
  lemma ScanEntriesAreBlocks(name: string, lines: seq<string>, i: nat)
    requires i <= |lines|
    ensures forall k :: 0 <= k < |Scan(name, lines, i)| ==> BlockFrom(name, lines, i, Scan(name, lines, i)[k])
  {
    var r := Scan(name, lines, i);
    ScanHeaders(name, lines, i);
    var H :| Headers(name, lines, i, H, r);
    forall k | 0 <= k < |r|
      ensures BlockFrom(name, lines, i, r[k])
    {
      assert i <= H[k] < |lines| && ContainsFolded(lines[H[k]], name) && r[k] == Entry(lines, H[k]);
    }
  }

  /**
   A labelled line `h` that the scan from `i` reaches (the first line, or a
   line with no indentation, which no earlier block can absorb) opens an
   entry.
   */
  lemma {:induction false} HeaderYieldsEntry(name: string, lines: seq<string>, i: nat, h: nat)
    requires i <= h < |lines|
    requires h == i || !Indented(lines[h])
    requires ContainsFolded(lines[h], name)
    ensures Entry(lines, h) in Scan(name, lines, i)
    decreases |lines| - i
  {
    if h == i {
      assert Scan(name, lines, i)[0] == Entry(lines, h);
    } else if ContainsFolded(lines[i], name) {
      var j := BlockEnd(lines, i + 1);
      assert j <= h;
      HeaderYieldsEntry(name, lines, j, h);
      assert Scan(name, lines, i) == [Entry(lines, i)] + Scan(name, lines, j);
    } else {
      HeaderYieldsEntry(name, lines, i + 1, h);
    }
  }

  /**
   Each entry of a section is the block of some labelled line, joined and
   stripped, and every labelled line that is the first line or has no
   indentation gives such an entry. `SectionHeaders` fixes the order and
   which labelled lines open no entry of their own.
   */
  lemma SectionEntriesAreBlocks(name: string, source: string)
    ensures forall k :: 0 <= k < |ParseSection(name, source)| ==>
              BlockFrom(name, Lines(source), 0, ParseSection(name, source)[k])
    ensures forall h :: 0 <= h < |Lines(source)| && (h == 0 || !Indented(Lines(source)[h])) && ContainsFolded(Lines(source)[h], name) ==>
              Entry(Lines(source), h) in ParseSection(name, source)
  {
    var lines := Lines(source);
    ScanEntriesAreBlocks(name, lines, 0);
    forall h | 0 <= h < |lines| && (h == 0 || !Indented(lines[h])) && ContainsFolded(lines[h], name)
      ensures Entry(lines, h) in ParseSection(name, source)
    {
      HeaderYieldsEntry(name, lines, 0, h);
    }
  }

  /** Line `h` lies inside the block of one of the header lines `H`, after the header itself. */
  ghost predicate Absorbed(lines: seq<string>, H: seq<nat>, h: nat)
  {
    exists k :: 0 <= k < |H| && H[k] < h < |lines| && h < BlockEnd(lines, H[k] + 1)
  }

  /** The `k`-th entry of `r` is the block of the labelled line `H[k]`, at or after `i`. */
  ghost predicate HeadsEntries(name: string, lines: seq<string>, i: nat, H: seq<nat>, r: seq<string>)
  {
    && |H| == |r|
    && forall k :: 0 <= k < |H| ==>
         i <= H[k] < |lines| && ContainsFolded(lines[H[k]], name) && r[k] == Entry(lines, H[k])
  }

  /** Each header comes no earlier than the end of the block before it, so `H` strictly increases. */
  ghost predicate Spaced(lines: seq<string>, H: seq<nat>)
  {
    forall k :: 0 <= k < |H| - 1 ==> H[k] < |lines| && BlockEnd(lines, H[k] + 1) <= H[k + 1]
  }

  /** Every labelled line from `i` on is a header or lies inside a header's block. */
  ghost predicate Covers(name: string, lines: seq<string>, i: nat, H: seq<nat>)
  {
    forall h :: i <= h < |lines| && ContainsFolded(lines[h], name) && h !in H ==> Absorbed(lines, H, h)
  }

  /**
   `H` are the header lines, from line `i` on, of the entries `r`, in order:
   the `k`-th entry is the block of the labelled line `H[k]`; the next header
   comes no earlier than the end of the previous block; and every other
   labelled line from `i` on lies inside one of those blocks, so it opens no
   entry of its own.
   */
  ghost predicate Headers(name: string, lines: seq<string>, i: nat, H: seq<nat>, r: seq<string>)
  {
    HeadsEntries(name, lines, i, H, r) && Spaced(lines, H) && Covers(name, lines, i, H)
  }

  lemma HeadsEntriesCons(name: string, lines: seq<string>, i: nat, rest: seq<nat>, r: seq<string>)
    requires i < |lines| && ContainsFolded(lines[i], name)
    requires HeadsEntries(name, lines, BlockEnd(lines, i + 1), rest, r)
    ensures HeadsEntries(name, lines, i, [i] + rest, [Entry(lines, i)] + r)
  {
    var H, e := [i] + rest, [Entry(lines, i)] + r;
    forall k | 0 <= k < |H|
      ensures i <= H[k] < |lines| && ContainsFolded(lines[H[k]], name) && e[k] == Entry(lines, H[k])
    {
      if k > 0 {
        assert H[k] == rest[k - 1] && e[k] == r[k - 1];
      }
    }
  }

  lemma SpacedCons(lines: seq<string>, i: nat, rest: seq<nat>)
    requires i < |lines|
    requires Spaced(lines, rest)
    requires forall k :: 0 <= k < |rest| ==> BlockEnd(lines, i + 1) <= rest[k]
    ensures Spaced(lines, [i] + rest)
  {
    var H := [i] + rest;
    forall k | 0 <= k < |H| - 1
      ensures H[k] < |lines| && BlockEnd(lines, H[k] + 1) <= H[k + 1]
    {
      if k > 0 {
        assert H[k] == rest[k - 1] && H[k + 1] == rest[k];
      } else {
        assert H[1] == rest[0];
      }
    }
  }

  lemma CoversCons(name: string, lines: seq<string>, i: nat, rest: seq<nat>)
    requires i < |lines|
    requires Covers(name, lines, BlockEnd(lines, i + 1), rest)
    ensures Covers(name, lines, i, [i] + rest)
  {
    var j := BlockEnd(lines, i + 1);
    var H := [i] + rest;
    forall h | i <= h < |lines| && ContainsFolded(lines[h], name) && h !in H
      ensures Absorbed(lines, H, h)
    {
      if h < j {
        assert H[0] < h < |lines| && h < BlockEnd(lines, H[0] + 1);
      } else {
        assert h !in rest;
        var k :| 0 <= k < |rest| && rest[k] < h < |lines| && h < BlockEnd(lines, rest[k] + 1);
        assert H[k + 1] == rest[k];
      }
    }
  }

  /** A labelled line at `i` heads the block before the headers found after that block. */
  lemma HeadersCons(name: string, lines: seq<string>, i: nat, rest: seq<nat>, r: seq<string>)
    requires i < |lines| && ContainsFolded(lines[i], name)
    requires Headers(name, lines, BlockEnd(lines, i + 1), rest, r)
    ensures Headers(name, lines, i, [i] + rest, [Entry(lines, i)] + r)
  {
    HeadsEntriesCons(name, lines, i, rest, r);
    SpacedCons(lines, i, rest);
    CoversCons(name, lines, i, rest);
  }

  /** An unlabelled line at `i` changes neither the entries nor their headers. */
  lemma HeadersSkip(name: string, lines: seq<string>, i: nat, H: seq<nat>, r: seq<string>)
    requires i < |lines| && !ContainsFolded(lines[i], name)
    requires Headers(name, lines, i + 1, H, r)
    ensures Headers(name, lines, i, H, r)
  {
  }

  /** The entries found from line `i` on have header lines as `Headers` describes. */
  lemma {:induction false} ScanHeaders(name: string, lines: seq<string>, i: nat)
    requires i <= |lines|
    ensures exists H :: Headers(name, lines, i, H, Scan(name, lines, i))
    decreases |lines| - i
  {
    if i == |lines| {
      assert Headers(name, lines, i, [], Scan(name, lines, i));
    } else if ContainsFolded(lines[i], name) {
      var j := BlockEnd(lines, i + 1);
      ScanHeaders(name, lines, j);
      var rest :| Headers(name, lines, j, rest, Scan(name, lines, j));
      HeadersCons(name, lines, i, rest, Scan(name, lines, j));
      assert Scan(name, lines, i) == [Entry(lines, i)] + Scan(name, lines, j);
      assert Headers(name, lines, i, [i] + rest, Scan(name, lines, i));
    } else {
      ScanHeaders(name, lines, i + 1);
      var H :| Headers(name, lines, i + 1, H, Scan(name, lines, i + 1));
      HeadersSkip(name, lines, i, H, Scan(name, lines, i + 1));
      assert Headers(name, lines, i, H, Scan(name, lines, i));
    }
  }

  /**
   The entries of a section, in order, are the blocks of a strictly
   increasing run of labelled lines, each starting no earlier than the end of
   the block before it; every labelled line outside that run lies inside one
   of its blocks.
   */
  lemma SectionHeaders(name: string, source: string)
    ensures exists H :: Headers(name, Lines(source), 0, H, ParseSection(name, source))
  {
    var lines := Lines(source);
    ScanHeaders(name, lines, 0);
    var H :| Headers(name, lines, 0, H, Scan(name, lines, 0));
    assert Headers(name, lines, 0, H, ParseSection(name, source));
  }
}
