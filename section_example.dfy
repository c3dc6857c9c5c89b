/**
 The worked example of a `commands:` section: a usage line, the label and
 two indented command lines give a single entry, the whole block stripped.
 */
module SectionExample {
  import opened Strings
  import opened Sections

  /** Four newline-free lines, each followed by a newline, split into those lines and a last empty piece. */
  lemma SplitFourLines(usage: string, head: string, b: string, d: string)
    requires '\n' !in usage && '\n' !in head && '\n' !in b && '\n' !in d
    ensures Lines(usage + "\n" + (head + "\n" + (b + "\n" + (d + "\n" + "")))) == [usage, head, b, d, ""]
  {
    var t4 := d + "\n" + "";
    LinesAfterLine(d, "");
    var t3 := b + "\n" + t4;
    LinesAfterLine(b, t4);
    var t2 := head + "\n" + t3;
    LinesAfterLine(head, t3);
    LinesAfterLine(usage, t2);
  }

  /** Three lines joined back with newlines. */
  lemma JoinMiddleThree(ls: seq<string>, head: string, b: string, d: string)
    requires |ls| == 5 && ls[1] == head && ls[2] == b && ls[3] == d
    ensures JoinLines(ls[1..4]) == head + "\n" + b + "\n" + d
  {
    var block := ls[1..4];
    assert block[0] == head && block[1] == b && block[2] == d && |block| == 3;
    assert block[1..][1..] == [d];
    assert JoinLines(block[1..]) == b + "\n" + d;
  }

  /**
   An unlabelled line, a labelled line, two indented lines and an empty last
   piece give one entry: the labelled line with the indented ones.
   */
  lemma ScanOneBlock(name: string, ls: seq<string>, usage: string, head: string, b: string, d: string)
    requires ls == [usage, head, b, d, ""]
    requires name != [] && !ContainsFolded(usage, name) && ContainsFolded(head, name)
    requires Indented(b) && Indented(d)
    ensures Scan(name, ls, 0) == [Strip(head + "\n" + b + "\n" + d)]
  {
    assert Scan(name, ls, 0) == Scan(name, ls, 1);
    assert !Indented(ls[4]);
    assert BlockEnd(ls, 4) == 4;
    assert BlockEnd(ls, 3) == 4;
    assert BlockEnd(ls, 2) == 4;
    JoinMiddleThree(ls, head, b, d);
    assert Scan(name, ls, 4) == [] by { assert !ContainsFolded(ls[4], name); }
  }

  lemma UsageUnlabelled()
    ensures !ContainsFolded("Usage: tool COMMAND", "commands:")
  {
    var usage, head := "Usage: tool COMMAND", "commands:";
    forall i | 0 <= i <= |usage| - |head| ensures !MatchesAt(usage, head, i) {
      assert ToLower(usage[i]) != ToLower(head[0]);
    }
  }

  lemma BlockStripped(block: string)
    requires block == "commands:\n  build  Build\n  deploy Deploy"
    ensures Strip(block) == block
  {
    assert !IsSpace(block[0]);
    assert !IsSpace(block[|block| - 1]);
    assert TextStart(block, 0) == 0;
    assert TextEnd(block, 0, |block|) == |block|;
    assert block[0..|block|] == block;
  }

  lemma SourceSpelled()
    ensures "Usage: tool COMMAND" + "\n" + "commands:" + "\n" + "  build  Build" + "\n" + "  deploy Deploy" + "\n"
         == "Usage: tool COMMAND\ncommands:\n  build  Build\n  deploy Deploy\n"
  {
  }

  /** Four lines joined left to right are the same text joined right to left. */
  lemma Regroup(u: string, h: string, b: string, d: string)
    ensures u + "\n" + h + "\n" + b + "\n" + d + "\n" == u + "\n" + (h + "\n" + (b + "\n" + (d + "\n" + "")))
  {
    var nl := "\n";
    var t4 := d + nl + "";
    assert d + nl == t4;
    var t3 := b + nl + t4;
    assert b + nl + d + nl == t3;
    var t2 := h + nl + t3;
    assert h + nl + b + nl + d + nl == t2;
    assert u + nl + h + nl + b + nl + d + nl == u + nl + t2;
  }

  lemma BlockSpelled()
    ensures "commands:" + "\n" + "  build  Build" + "\n" + "  deploy Deploy"
         == "commands:\n  build  Build\n  deploy Deploy"
  {
  }

  lemma ExampleSplit()
    ensures Lines("Usage: tool COMMAND\ncommands:\n  build  Build\n  deploy Deploy\n")
         == ["Usage: tool COMMAND", "commands:", "  build  Build", "  deploy Deploy", ""]
  {
    SplitFourLines("Usage: tool COMMAND", "commands:", "  build  Build", "  deploy Deploy");
    Regroup("Usage: tool COMMAND", "commands:", "  build  Build", "  deploy Deploy");
    SourceSpelled();
  }

  lemma ExampleScan()
    ensures Scan("commands:", ["Usage: tool COMMAND", "commands:", "  build  Build", "  deploy Deploy", ""], 0)
         == ["commands:\n  build  Build\n  deploy Deploy"]
  {
    UsageUnlabelled();
    assert MatchesAt("commands:", "commands:", 0);
    ScanOneBlock("commands:", ["Usage: tool COMMAND", "commands:", "  build  Build", "  deploy Deploy", ""],
                 "Usage: tool COMMAND", "commands:", "  build  Build", "  deploy Deploy");
    BlockSpelled();
    BlockStripped("commands:\n  build  Build\n  deploy Deploy");
  }

  /** The `commands:` block of a help text comes back as one entry, verbatim. */
  lemma CommandsSectionExample()
    ensures ParseSection("commands:", "Usage: tool COMMAND\ncommands:\n  build  Build\n  deploy Deploy\n")
         == ["commands:\n  build  Build\n  deploy Deploy"]
  {
    ExampleSplit();
    ExampleScan();
  }

  /**
   A labelled line that is indented belongs to the block above it: the
   header and its indented `sub commands:` line give one entry, not two.
   */
  lemma IndentedLabelAbsorbed()
    ensures |Scan("commands:", ["commands:", "  sub commands:"], 0)| == 1
  {
    var lines := ["commands:", "  sub commands:"];
    assert MatchesAt(lines[0], "commands:", 0);
    assert Indented(lines[1]);
    assert BlockEnd(lines, 1) == 2;
  }
}
