/** The scenarios of the if/else-without-braces tests, stated about the
    model: the statement each test document holds, the diagnostics it
    yields, and the statement the fix makes of it.  The keyword positions
    used are checked against the documents themselves. */
module IfStatementWithoutBracesScenarios {
  import opened Wrappers
  import opened Diagnostics
  import opened IfStatementWithoutBraces

  /** `word` stands in `doc` at the one-based `location`. */
  predicate KeywordAt(doc: seq<string>, location: Location, word: string)
  {
    1 <= location.line <= |doc| && 1 <= location.column &&
    location.column - 1 + |word| <= |doc[location.line - 1]| &&
    doc[location.line - 1][location.column - 1..location.column - 1 + |word|] == word
  }

  const WriteTrue: Stmt := Simple("Console.WriteLine(\"true\");")
  const WriteFalse: Stmt := Simple("Console.WriteLine(\"false\");")

  /** A line break followed by the indentation of a nested statement. */
  const NextLine16: seq<Trivia> := [EndOfLine, Whitespace("                ")]
  /** A line break followed by the indentation of a brace. */
  const NextLine12: seq<Trivia> := [EndOfLine, Whitespace("            ")]

  /** The test document of IfStatementWithoutBracesAnalyzerTests.cs, lines 16-29, one string per line; a line
      holding an `if` or `else` keyword is written as its indentation,
      the keyword and the rest. */
  const SameLineDocument: seq<string> := [
    "",
    "using System;",
    "using System.Text;",
    "",
    "namespace ConsoleApplication1",
    "{",
    "    class MyClass",
    "    {   ",
    "        void Method()",
    "        {",
    "            " + "if" + "(true) Console.WriteLine(\"true\");",
    "        }",
    "    }",
    "}"]

  /** The test document of IfStatementWithoutBracesAnalyzerTests.cs, lines 68-81, one string per line; a line
      holding an `if` or `else` keyword is written as its indentation,
      the keyword and the rest. */
  const CommentDocument: seq<string> := [
    "",
    "using System;",
    "using System.Text;",
    "",
    "namespace ConsoleApplication1",
    "{",
    "    class MyClass",
    "    {   ",
    "        void Method()",
    "        {",
    "            " + "if" + "(true) /* comments */ Console.WriteLine(\"true\");",
    "        }",
    "    }",
    "}"]

  /** The test document of IfStatementWithoutBracesAnalyzerTests.cs, lines 120-134, one string per line; a line
      holding an `if` or `else` keyword is written as its indentation,
      the keyword and the rest. */
  const NextLineDocument: seq<string> := [
    "",
    "using System;",
    "using System.Text;",
    "",
    "namespace ConsoleApplication1",
    "{",
    "    class MyClass",
    "    {   ",
    "        void Method()",
    "        {",
    "            " + "if" + "(true)",
    "                Console.WriteLine(\"true\");",
    "        }",
    "    }",
    "}"]

  /** The test document of IfStatementWithoutBracesAnalyzerTests.cs, lines 173-189, one string per line; a line
      holding an `if` or `else` keyword is written as its indentation,
      the keyword and the rest. */
  const BracedDocument: seq<string> := [
    "",
    "using System;",
    "using System.Text;",
    "",
    "namespace ConsoleApplication1",
    "{",
    "    class MyClass",
    "    {   ",
    "        void Method()",
    "        {",
    "            " + "if" + "(true)",
    "            {",
    "                Console.WriteLine(\"true\");",
    "            }",
    "        }",
    "    }",
    "}"]

  /** The test document of IfStatementWithoutBracesAnalyzerTests.cs, lines 196-213, one string per line; a line
      holding an `if` or `else` keyword is written as its indentation,
      the keyword and the rest. */
  const ElseSameLineDocument: seq<string> := [
    "",
    "using System;",
    "using System.Text;",
    "",
    "namespace ConsoleApplication1",
    "{",
    "    class MyClass",
    "    {   ",
    "        void Method()",
    "        {",
    "            " + "if" + "(true)",
    "            {",
    "                Console.WriteLine(\"true\");",
    "            }",
    "            " + "else" + " Console.WriteLine(\"false\");",
    "        }",
    "    }",
    "}"]

  /** The test document of IfStatementWithoutBracesAnalyzerTests.cs, lines 256-274, one string per line; a line
      holding an `if` or `else` keyword is written as its indentation,
      the keyword and the rest. */
  const ElseNextLineDocument: seq<string> := [
    "",
    "using System;",
    "using System.Text;",
    "",
    "namespace ConsoleApplication1",
    "{",
    "    class MyClass",
    "    {   ",
    "        void Method()",
    "        {",
    "            " + "if" + "(true)",
    "            {",
    "                Console.WriteLine(\"true\");",
    "            }",
    "            " + "else" + " ",
    "                Console.WriteLine(\"false\");",
    "        }",
    "    }",
    "}"]

  /** The test document of IfStatementWithoutBracesAnalyzerTests.cs, lines 317-337, one string per line; a line
      holding an `if` or `else` keyword is written as its indentation,
      the keyword and the rest. */
  const ElseBracedDocument: seq<string> := [
    "",
    "using System;",
    "using System.Text;",
    "",
    "namespace ConsoleApplication1",
    "{",
    "    class MyClass",
    "    {   ",
    "        void Method()",
    "        {",
    "            " + "if" + "(true)",
    "            {",
    "                Console.WriteLine(\"true\");",
    "            }",
    "            " + "else" + " ",
    "            {",
    "                Console.WriteLine(\"false\");",
    "            }",
    "        }",
    "    }",
    "}"]

  /** The test document of IfStatementWithoutBracesAnalyzerTests.cs, lines 344-360, one string per line; a line
      holding an `if` or `else` keyword is written as its indentation,
      the keyword and the rest. */
  const BothDocument: seq<string> := [
    "",
    "using System;",
    "using System.Text;",
    "",
    "namespace ConsoleApplication1",
    "{",
    "    class MyClass",
    "    {   ",
    "        void Method()",
    "        {",
    "            " + "if" + "(true)",
    "                Console.WriteLine(\"true\");",
    "            " + "else",
    "                Console.WriteLine(\"false\");",
    "        }",
    "    }",
    "}"]

  // ---- if without braces ----

  /** `if(true) Console.WriteLine("true");` */
  const SameLine: Stmt := If(Location(11, 13), "true", Single([Whitespace(" ")], WriteTrue), None)

  /** The same with a block comment between the header and the statement. */
  const WithComment: Stmt :=
    If(Location(11, 13), "true",
       Single([Whitespace(" "), Comment("/* comments */"), Whitespace(" ")], WriteTrue), None)

  /** The statement on the line after the header. */
  const OnNextLine: Stmt := If(Location(11, 13), "true", Single(NextLine16, WriteTrue), None)

  /** One diagnostic, at the `if` keyword (11,13); the fix wraps the
      statement in a block. */
  lemma SameLineReportedAndFixed(rule: Descriptor)
    ensures KeywordAt(SameLineDocument, Location(11, 13), "if")
    ensures Diagnose(rule, SameLine) == [Create(rule, Location(11, 13), [])]
    ensures Fix(SameLine) == If(Location(11, 13), "true", Block([Whitespace(" ")], [WriteTrue]), None)
  {
    SameLineIfKeyword();
  }

  /** One diagnostic at (11,13); the comment stays after the header, in
      front of the opening brace of the new block. */
  lemma CommentKeptBeforeBrace(rule: Descriptor)
    ensures KeywordAt(CommentDocument, Location(11, 13), "if")
    ensures Diagnose(rule, WithComment) == [Create(rule, Location(11, 13), [])]
    ensures Fix(WithComment).body.Block?
    ensures Comment("/* comments */") in Fix(WithComment).body.leading
    ensures Fix(WithComment).body.stmts == [WriteTrue]
  {
    CommentIfKeyword();
    assert Fix(WithComment).body.leading[1] == Comment("/* comments */");
  }

  /** The statement on the next line: the same diagnostic, and the same fix
      result once the layout is set aside. */
  lemma NextLineReportedAndFixedAlike(rule: Descriptor)
    ensures KeywordAt(NextLineDocument, Location(11, 13), "if")
    ensures Diagnose(rule, OnNextLine) == [Create(rule, Location(11, 13), [])]
    ensures WithoutLayout(Fix(OnNextLine)) == WithoutLayout(Fix(SameLine))
  {
    NextLineIfKeyword();
    FixIgnoresLayout(OnNextLine);
    FixIgnoresLayout(SameLine);
    assert Comments(NextLine16) == [] by { assert NextLine16[1..][1..] == []; }
    assert Comments([Whitespace(" ")]) == [] by { assert [Whitespace(" ")][1..] == []; }
  }

  /** `if(true)` with a block body: nothing is reported, and the fix leaves
      the statement as it is. */
  lemma BracedNotReported(rule: Descriptor)
    ensures KeywordAt(BracedDocument, Location(11, 13), "if")
    ensures var s := If(Location(11, 13), "true", Block(NextLine12, [WriteTrue]), None);
            Diagnose(rule, s) == [] && Fix(s) == s
  {
    BracedIfKeyword();
    var s := If(Location(11, 13), "true", Block(NextLine12, [WriteTrue]), None);
    SimpleBlock(rule, WriteTrue);
    BracedUnchanged(s);
  }

  // ---- else without braces ----

  /** A braced `if` followed by `else Console.WriteLine("false");`. */
  const ElseOnSameLine: Stmt :=
    If(Location(11, 13), "true", Block(NextLine12, [WriteTrue]),
       Some(Else(Location(15, 13), Single([Whitespace(" ")], WriteFalse))))

  /** The same with the else statement on the next line. */
  const ElseOnNextLine: Stmt :=
    If(Location(11, 13), "true", Block(NextLine12, [WriteTrue]),
       Some(Else(Location(15, 13), Single([Whitespace(" ")] + NextLine16, WriteFalse))))

  /** One diagnostic, at the `else` keyword (15,13); only the else clause is
      wrapped, the if block is kept as it was. */
  lemma ElseSameLineReportedAndFixed(rule: Descriptor)
    ensures KeywordAt(ElseSameLineDocument, Location(11, 13), "if")
    ensures KeywordAt(ElseSameLineDocument, Location(15, 13), "else")
    ensures Diagnose(rule, ElseOnSameLine) == [Create(rule, Location(15, 13), [])]
    ensures Fix(ElseOnSameLine) ==
            If(Location(11, 13), "true", Block(NextLine12, [WriteTrue]),
               Some(Else(Location(15, 13), Block([Whitespace(" ")], [WriteFalse]))))
  {
    ElseSameLineIfKeyword();
    ElseSameLineElseKeyword();
    SimpleBlock(rule, WriteTrue);
    UnreportedClauseUnchanged(rule, Location(11, 13), Block(NextLine12, [WriteTrue]));
  }

  /** The else statement on the next line: the same diagnostic, and the
      same fix result once the layout is set aside. */
  lemma ElseNextLineReportedAndFixedAlike(rule: Descriptor)
    ensures KeywordAt(ElseNextLineDocument, Location(11, 13), "if")
    ensures KeywordAt(ElseNextLineDocument, Location(15, 13), "else")
    ensures Diagnose(rule, ElseOnNextLine) == [Create(rule, Location(15, 13), [])]
    ensures WithoutLayout(Fix(ElseOnNextLine)) == WithoutLayout(Fix(ElseOnSameLine))
  {
    ElseNextLineIfKeyword();
    ElseNextLineElseKeyword();
    SimpleBlock(rule, WriteTrue);
    assert Diagnose(rule, WriteFalse) == [];
    FixIgnoresLayout(ElseOnNextLine);
    FixIgnoresLayout(ElseOnSameLine);
    assert Comments([Whitespace(" ")] + NextLine16) == [] by {
      assert ([Whitespace(" ")] + NextLine16)[1..] == NextLine16;
      assert NextLine16[1..][1..] == [];
    }
    assert Comments([Whitespace(" ")]) == [] by { assert [Whitespace(" ")][1..] == []; }
  }

  /** An `if` and an `else` that both have block bodies: nothing is
      reported. */
  lemma ElseBracedNotReported(rule: Descriptor)
    ensures KeywordAt(ElseBracedDocument, Location(11, 13), "if")
    ensures KeywordAt(ElseBracedDocument, Location(15, 13), "else")
    ensures Diagnose(rule, If(Location(11, 13), "true", Block(NextLine12, [WriteTrue]),
                              Some(Else(Location(15, 13), Block([Whitespace(" ")] + NextLine12, [WriteFalse]))))) == []
  {
    ElseBracedIfKeyword();
    ElseBracedElseKeyword();
    SimpleBlock(rule, WriteTrue);
    SimpleBlock(rule, WriteFalse);
  }

  // ---- both without braces ----

  /** `if(true)` and `else`, each followed by a statement on the next line. */
  const BothUnbraced: Stmt :=
    If(Location(11, 13), "true", Single(NextLine16, WriteTrue),
       Some(Else(Location(13, 13), Single(NextLine16, WriteFalse))))

  /** Two diagnostics, in source order: the `if` at (11,13), then the `else`
      at (13,13).  One pass of the fix braces both clauses. */
  lemma BothReportedInOrderAndFixed(rule: Descriptor)
    ensures KeywordAt(BothDocument, Location(11, 13), "if")
    ensures KeywordAt(BothDocument, Location(13, 13), "else")
    ensures Diagnose(rule, BothUnbraced) == [Create(rule, Location(11, 13), []), Create(rule, Location(13, 13), [])]
    ensures Sorted(Locations(Diagnose(rule, BothUnbraced)))
    ensures Fix(BothUnbraced) ==
            If(Location(11, 13), "true", Block(NextLine16, [WriteTrue]),
               Some(Else(Location(13, 13), Block(NextLine16, [WriteFalse]))))
    ensures Diagnose(rule, Fix(BothUnbraced)) == []
  {
    BothIfKeyword();
    BothElseKeyword();
    var ds := Diagnose(rule, BothUnbraced);
    assert Locations(ds) == [Location(11, 13), Location(13, 13)];
    FixResolvesDiagnostics(rule, BothUnbraced);
  }

  /** A block holding one simple statement yields nothing and is kept by
      the fix. */
  lemma SimpleBlock(rule: Descriptor, s: Stmt)
    requires s.Simple?
    ensures DiagnoseAll(rule, [s]) == [] && BracedAll([s]) && FixAll([s]) == [s]
  {
    assert [s][1..] == [];
    assert Braced(s) && Diagnose(rule, s) == [] && Fix(s) == s;
    assert BracedAll([s]) by { assert BracedAll([s][1..]); }
    assert DiagnoseAll(rule, [s]) == Diagnose(rule, s) + DiagnoseAll(rule, [s][1..]);
    assert FixAll([s]) == [Fix(s)] + FixAll([s][1..]);
  }

  // ---- the keyword positions, read off the documents ----


  lemma SameLineIfKeyword()
    ensures KeywordAt(SameLineDocument, Location(11, 13), "if")
  {
    assert SameLineDocument[10][12] == 'i' && SameLineDocument[10][13] == 'f';
  }

  lemma CommentIfKeyword()
    ensures KeywordAt(CommentDocument, Location(11, 13), "if")
  {
    assert CommentDocument[10][12] == 'i' && CommentDocument[10][13] == 'f';
  }

  lemma NextLineIfKeyword()
    ensures KeywordAt(NextLineDocument, Location(11, 13), "if")
  {
    assert NextLineDocument[10][12] == 'i' && NextLineDocument[10][13] == 'f';
  }

  lemma BracedIfKeyword()
    ensures KeywordAt(BracedDocument, Location(11, 13), "if")
  {
    assert BracedDocument[10][12] == 'i' && BracedDocument[10][13] == 'f';
  }

  lemma ElseSameLineIfKeyword()
    ensures KeywordAt(ElseSameLineDocument, Location(11, 13), "if")
  {
    assert ElseSameLineDocument[10][12] == 'i' && ElseSameLineDocument[10][13] == 'f';
  }

  lemma ElseSameLineElseKeyword()
    ensures KeywordAt(ElseSameLineDocument, Location(15, 13), "else")
  {
    assert ElseSameLineDocument[14][12] == 'e' && ElseSameLineDocument[14][13] == 'l' && ElseSameLineDocument[14][14] == 's' && ElseSameLineDocument[14][15] == 'e';
  }

  lemma ElseNextLineIfKeyword()
    ensures KeywordAt(ElseNextLineDocument, Location(11, 13), "if")
  {
    assert ElseNextLineDocument[10][12] == 'i' && ElseNextLineDocument[10][13] == 'f';
  }

  lemma ElseNextLineElseKeyword()
    ensures KeywordAt(ElseNextLineDocument, Location(15, 13), "else")
  {
    assert ElseNextLineDocument[14][12] == 'e' && ElseNextLineDocument[14][13] == 'l' && ElseNextLineDocument[14][14] == 's' && ElseNextLineDocument[14][15] == 'e';
  }

  lemma ElseBracedIfKeyword()
    ensures KeywordAt(ElseBracedDocument, Location(11, 13), "if")
  {
    assert ElseBracedDocument[10][12] == 'i' && ElseBracedDocument[10][13] == 'f';
  }

  lemma ElseBracedElseKeyword()
    ensures KeywordAt(ElseBracedDocument, Location(15, 13), "else")
  {
    assert ElseBracedDocument[14][12] == 'e' && ElseBracedDocument[14][13] == 'l' && ElseBracedDocument[14][14] == 's' && ElseBracedDocument[14][15] == 'e';
  }

  lemma BothIfKeyword()
    ensures KeywordAt(BothDocument, Location(11, 13), "if")
  {
    assert BothDocument[10][12] == 'i' && BothDocument[10][13] == 'f';
  }

  lemma BothElseKeyword()
    ensures KeywordAt(BothDocument, Location(13, 13), "else")
  {
    assert BothDocument[12][12] == 'e' && BothDocument[12][13] == 'l' && BothDocument[12][14] == 's' && BothDocument[12][15] == 'e';
  }
}
