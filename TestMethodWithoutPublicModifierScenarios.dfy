/** The scenarios of the two test classes for the test-method-must-be-public
    rule, stated about the model: which methods are reported, at which
    line and column, with which message argument, and what the fix makes of
    the whole test document.  Both test classes use the same documents. */
module TestMethodWithoutPublicModifierScenarios {
  import opened Wrappers
  import opened Diagnostics
  import opened Syntax
  import opened TestMethodWithoutPublicModifier

  /** A `void Method()` declaration as the scenarios write it. */
  function ScenarioMethod(attributes: seq<string>, modifiers: seq<string>, line: nat, indent: nat): MethodDecl
  {
    MethodDecl(attributes, modifiers, "void", "Method", "()", line, indent)
  }

  /** The header line of a scenario method indented by eight spaces, and
      the method the fix makes of it. */
  lemma ScenarioHeader(attributes: seq<string>, modifiers: seq<string>, line: nat)
    ensures HeaderText(ScenarioMethod(attributes, modifiers, line, 8))
         == "        " + Join(modifiers + ["void", "Method"]) + "()"
    ensures FixMethod(ScenarioMethod(attributes, modifiers, line, 8))
         == ScenarioMethod(attributes, FixModifiers(modifiers), line, 8)
  {
    assert Spaces(2) == "  ";
    assert Spaces(4) == "    ";
    assert Spaces(8) == "        ";
  }

  /** The test document of TestMethodWithoutPublicModifierAnalyzerTests.cs, lines 84-99, one string per line;
      the method's header line is written as its indentation, its tokens
      and its parameter list. */
  const InternalTestBefore: seq<string> := [
    "",
    "using System;",
    "using System.Text;",
    "",
    "namespace ConsoleApplication1",
    "{",
    "    [TestFixture]",
    "    public class MyClass",
    "    {   ",
    "        [Test]",
    "        " + "internal" + " " + "void" + " " + "Method" + "()",
    "        {",
    "                ",
    "        }",
    "    }",
    "}"]

  /** The test document of TestMethodWithoutPublicModifierAnalyzerTests.cs, lines 101-116, one string per line;
      the method's header line is written as its indentation, its tokens
      and its parameter list. */
  const InternalTestAfter: seq<string> := [
    "",
    "using System;",
    "using System.Text;",
    "",
    "namespace ConsoleApplication1",
    "{",
    "    [TestFixture]",
    "    public class MyClass",
    "    {   ",
    "        [Test]",
    "        " + "public" + " " + "void" + " " + "Method" + "()",
    "        {",
    "                ",
    "        }",
    "    }",
    "}"]

  /** The test document of TestMethodWithoutPublicModifierAnalyzerTests.cs, lines 137-152, one string per line;
      the method's header line is written as its indentation, its tokens
      and its parameter list. */
  const InternalTestMethodBefore: seq<string> := [
    "",
    "using System;",
    "using System.Text;",
    "",
    "namespace ConsoleApplication1",
    "{",
    "    [TestClass]",
    "    public class MyClass",
    "    {",
    "        [TestMethod]",
    "        " + "internal" + " " + "void" + " " + "Method" + "()",
    "        {",
    "",
    "        }",
    "    }",
    "}"]

  /** The test document of TestMethodWithoutPublicModifierAnalyzerTests.cs, lines 154-169, one string per line;
      the method's header line is written as its indentation, its tokens
      and its parameter list. */
  const InternalTestMethodAfter: seq<string> := [
    "",
    "using System;",
    "using System.Text;",
    "",
    "namespace ConsoleApplication1",
    "{",
    "    [TestClass]",
    "    public class MyClass",
    "    {",
    "        [TestMethod]",
    "        " + "public" + " " + "void" + " " + "Method" + "()",
    "        {",
    "",
    "        }",
    "    }",
    "}"]

  /** The test document of TestMethodWithoutPublicModifierAnalyzerTests.cs, lines 190-204, one string per line;
      the method's header line is written as its indentation, its tokens
      and its parameter list. */
  const InternalFactBefore: seq<string> := [
    "",
    "using System;",
    "using System.Text;",
    "",
    "namespace ConsoleApplication1",
    "{",
    "    public class MyClass",
    "    {",
    "        [Fact]",
    "        " + "internal" + " " + "void" + " " + "Method" + "()",
    "        {",
    "                ",
    "        }",
    "    }",
    "}"]

  /** The test document of TestMethodWithoutPublicModifierAnalyzerTests.cs, lines 206-220, one string per line;
      the method's header line is written as its indentation, its tokens
      and its parameter list. */
  const InternalFactAfter: seq<string> := [
    "",
    "using System;",
    "using System.Text;",
    "",
    "namespace ConsoleApplication1",
    "{",
    "    public class MyClass",
    "    {",
    "        [Fact]",
    "        " + "public" + " " + "void" + " " + "Method" + "()",
    "        {",
    "                ",
    "        }",
    "    }",
    "}"]

  /** The test document of TestMethodWithoutPublicModifierAnalyzerTests.cs, lines 265-280, one string per line;
      the method's header line is written as its indentation, its tokens
      and its parameter list. */
  const ProtectedInternalVirtualBefore: seq<string> := [
    "",
    "using System;",
    "using System.Text;",
    "",
    "namespace ConsoleApplication1",
    "{",
    "    [TestClass]",
    "    public class MyClass",
    "    {",
    "        [TestMethod]",
    "        " + "protected" + " " + "internal" + " " + "virtual" + " " + "void" + " " + "Method" + "()",
    "        {",
    "",
    "        }",
    "    }",
    "}"]

  /** The test document of TestMethodWithoutPublicModifierAnalyzerTests.cs, lines 282-297, one string per line;
      the method's header line is written as its indentation, its tokens
      and its parameter list. */
  const ProtectedInternalVirtualAfter: seq<string> := [
    "",
    "using System;",
    "using System.Text;",
    "",
    "namespace ConsoleApplication1",
    "{",
    "    [TestClass]",
    "    public class MyClass",
    "    {",
    "        [TestMethod]",
    "        " + "public" + " " + "virtual" + " " + "void" + " " + "Method" + "()",
    "        {",
    "",
    "        }",
    "    }",
    "}"]

  /** The test document of TestMethodWithoutPublicModifierAnalyzerTests.cs, lines 318-333, one string per line;
      the method's header line is written as its indentation, its tokens
      and its parameter list. */
  const InternalVirtualBefore: seq<string> := [
    "",
    "using System;",
    "using System.Text;",
    "",
    "namespace ConsoleApplication1",
    "{",
    "    [TestClass]",
    "    public class MyClass",
    "    {",
    "        [TestMethod]",
    "        " + "internal" + " " + "virtual" + " " + "void" + " " + "Method" + "()",
    "        {",
    "",
    "        }",
    "    }",
    "}"]

  /** The test document of TestMethodWithoutPublicModifierAnalyzerTests.cs, lines 335-350, one string per line;
      the method's header line is written as its indentation, its tokens
      and its parameter list. */
  const InternalVirtualAfter: seq<string> := [
    "",
    "using System;",
    "using System.Text;",
    "",
    "namespace ConsoleApplication1",
    "{",
    "    [TestClass]",
    "    public class MyClass",
    "    {",
    "        [TestMethod]",
    "        " + "public" + " " + "virtual" + " " + "void" + " " + "Method" + "()",
    "        {",
    "",
    "        }",
    "    }",
    "}"]

  /** The test document of TestMethodWithoutPublicModifierAnalyzerTests.cs, lines 371-386, one string per line;
      the method's header line is written as its indentation, its tokens
      and its parameter list. */
  const NoModifierBefore: seq<string> := [
    "",
    "using System;",
    "using System.Text;",
    "",
    "namespace ConsoleApplication1",
    "{",
    "    [TestFixture]",
    "    public class MyClass",
    "    {   ",
    "        [Test]",
    "        " + "void" + " " + "Method" + "()",
    "        {",
    "                ",
    "        }",
    "    }",
    "}"]

  /** The test document of TestMethodWithoutPublicModifierAnalyzerTests.cs, lines 388-403, one string per line;
      the method's header line is written as its indentation, its tokens
      and its parameter list. */
  const NoModifierAfter: seq<string> := [
    "",
    "using System;",
    "using System.Text;",
    "",
    "namespace ConsoleApplication1",
    "{",
    "    [TestFixture]",
    "    public class MyClass",
    "    {   ",
    "        [Test]",
    "        " + "public" + " " + "void" + " " + "Method" + "()",
    "        {",
    "                ",
    "        }",
    "    }",
    "}"]

  /** A document line that spells out the header of a scenario method. */
  lemma HeaderLine(doc: seq<string>, index: nat, attributes: seq<string>, modifiers: seq<string>, line: nat, text: string)
    requires index < |doc| && doc[index] == text
    requires "        " + Join(modifiers + ["void", "Method"]) + "()" == text
    ensures doc[index] == HeaderText(ScenarioMethod(attributes, modifiers, line, 8))
  {
    ScenarioHeader(attributes, modifiers, line);
  }

  /** The fix of a document whose line `m.line` holds the header of `m`. */
  lemma FixDocumentAt(before: seq<string>, after: seq<string>, m: MethodDecl, fixedLine: string)
    requires 1 <= m.line <= |before| && before[m.line - 1] == HeaderText(m)
    requires HeaderText(FixMethod(m)) == fixedLine
    requires before[m.line - 1 := fixedLine] == after
    ensures FixDocument(before, m) == Some(after)
  {
  }

  // ---- the modifier rewrites the scenarios pin ----

  /** `internal` becomes `public`. */
  lemma ModifiersInternalFixed()
    ensures FixModifiers(["internal"]) == ["public"]
  {
    FixReplacesSoleAccessibility(["internal"], 0);
    assert ["internal"][0 := "public"] == ["public"];
  }

  /** `protected internal virtual` becomes `public virtual`. */
  lemma ModifiersProtectedInternalVirtualFixed()
    ensures FixModifiers(["protected", "internal", "virtual"]) == ["public", "virtual"]
  {
    FixLeadingAccessibility(["protected", "internal"], ["virtual"]);
    assert ["protected", "internal"] + ["virtual"] == ["protected", "internal", "virtual"];
  }

  /** `internal virtual` becomes `public virtual`, `virtual` staying in place. */
  lemma ModifiersInternalVirtualFixed()
    ensures FixModifiers(["internal", "virtual"]) == ["public", "virtual"]
  {
    FixReplacesSoleAccessibility(["internal", "virtual"], 0);
    assert ["internal", "virtual"][0 := "public"] == ["public", "virtual"];
  }

  /** No modifier: `public` is put in front. */
  lemma ModifiersNoneFixed()
    ensures FixModifiers([]) == ["public"]
  {
    FixLeadingAccessibility([], []);
  }

  // ---- TestMethodWithoutPublicModifierAnalyzerTests ----

  /** A public method with [Test], [TestMethod] or [Fact] is not reported. */
  lemma PublicTestMethodsNotReported(rule: Descriptor, isTestAttribute: string -> bool)
    requires ScenarioTestAttributes(isTestAttribute)
    ensures Analyze(rule, ScenarioMethod(["Test"], ["public"], 11, 12), isTestAttribute) == None
    ensures Analyze(rule, ScenarioMethod(["TestMethod"], ["public"], 11, 12), isTestAttribute) == None
    ensures Analyze(rule, ScenarioMethod(["Fact"], ["public"], 10, 12), isTestAttribute) == None
  {
  }

  /** A public method carrying [Ignore] and [Test] is not reported. */
  lemma PublicWithSeveralAttributesNotReported(rule: Descriptor, isTestAttribute: string -> bool)
    requires ScenarioTestAttributes(isTestAttribute)
    ensures Analyze(rule, ScenarioMethod(["Ignore", "Test"], ["public"], 12, 12), isTestAttribute) == None
  {
  }

  /** A private static method without attributes is not reported. */
  lemma NonTestMethodNotReported(rule: Descriptor, isTestAttribute: string -> bool)
    ensures Analyze(rule, ScenarioMethod([], ["private", "static"], 9, 12), isTestAttribute) == None
  {
  }

  /** `internal void Method()` indented by eight spaces, with a test
      attribute, on any line: one diagnostic, at column 23 of that line,
      whose message argument is "Method". */
  lemma InternalMethodReported(rule: Descriptor, attribute: string, line: nat, isTestAttribute: string -> bool)
    requires isTestAttribute(attribute)
    ensures Analyze(rule, ScenarioMethod([attribute], ["internal"], line, 8), isTestAttribute)
         == Some(Create(rule, Location(line, 23), ["Method"]))
  {
    var m := ScenarioMethod([attribute], ["internal"], line, 8);
    assert HasTestAttribute(m, isTestAttribute) by { assert isTestAttribute(m.attributes[0]); }
    assert HeaderTokens(m) == ["internal", "void", "Method"];
    assert Offset(["void", "Method"], 1) == 5;
    assert Offset(["internal", "void", "Method"], 2) == 14;
  }

  /** `internal void Method()` with [Test]: one diagnostic, at 11,23, whose message
      argument is "Method"; the document's header line is the method's. */
  lemma InternalTestReported(rule: Descriptor, isTestAttribute: string -> bool)
    requires ScenarioTestAttributes(isTestAttribute)
    ensures InternalTestBefore[10] == HeaderText(ScenarioMethod(["Test"], ["internal"], 11, 8))
    ensures Analyze(rule, ScenarioMethod(["Test"], ["internal"], 11, 8), isTestAttribute)
         == Some(Create(rule, Location(11, 23), ["Method"]))
  {
    InternalTestHeaderBefore();
    InternalMethodReported(rule, "Test", 11, isTestAttribute);
  }

  /** `internal void Method()` with [Test]: the fix turns the test document into the expected one. */
  lemma InternalTestFixed()
    ensures FixDocument(InternalTestBefore, ScenarioMethod(["Test"], ["internal"], 11, 8)) == Some(InternalTestAfter)
  {
    var m := ScenarioMethod(["Test"], ["internal"], 11, 8);
    InternalTestHeaderBefore();
    InternalTestHeaderAfter();
    FixDocumentAt(InternalTestBefore, InternalTestAfter, m, "        " + "public" + " " + "void" + " " + "Method" + "()");
  }

  lemma InternalTestHeaderBefore()
    ensures InternalTestBefore[10] == HeaderText(ScenarioMethod(["Test"], ["internal"], 11, 8))
  {
    HeaderInternalVoidMethod();
    HeaderLine(InternalTestBefore, 10, ["Test"], ["internal"], 11, "        " + "internal" + " " + "void" + " " + "Method" + "()");
  }

  lemma InternalTestHeaderAfter()
    ensures HeaderText(FixMethod(ScenarioMethod(["Test"], ["internal"], 11, 8))) == "        " + "public" + " " + "void" + " " + "Method" + "()"
  {
    ScenarioHeader(["Test"], ["internal"], 11);
    ScenarioHeader(["Test"], ["public"], 11);
    ModifiersInternalFixed();
    HeaderPublicVoidMethod();
  }

  /** `internal void Method()` with [TestMethod]: one diagnostic, at 11,23, whose message
      argument is "Method"; the document's header line is the method's. */
  lemma InternalTestMethodReported(rule: Descriptor, isTestAttribute: string -> bool)
    requires ScenarioTestAttributes(isTestAttribute)
    ensures InternalTestMethodBefore[10] == HeaderText(ScenarioMethod(["TestMethod"], ["internal"], 11, 8))
    ensures Analyze(rule, ScenarioMethod(["TestMethod"], ["internal"], 11, 8), isTestAttribute)
         == Some(Create(rule, Location(11, 23), ["Method"]))
  {
    InternalTestMethodHeaderBefore();
    InternalMethodReported(rule, "TestMethod", 11, isTestAttribute);
  }

  /** `internal void Method()` with [TestMethod]: the fix turns the test document into the expected one. */
  lemma InternalTestMethodFixed()
    ensures FixDocument(InternalTestMethodBefore, ScenarioMethod(["TestMethod"], ["internal"], 11, 8)) == Some(InternalTestMethodAfter)
  {
    var m := ScenarioMethod(["TestMethod"], ["internal"], 11, 8);
    InternalTestMethodHeaderBefore();
    InternalTestMethodHeaderAfter();
    FixDocumentAt(InternalTestMethodBefore, InternalTestMethodAfter, m, "        " + "public" + " " + "void" + " " + "Method" + "()");
  }

  lemma InternalTestMethodHeaderBefore()
    ensures InternalTestMethodBefore[10] == HeaderText(ScenarioMethod(["TestMethod"], ["internal"], 11, 8))
  {
    HeaderInternalVoidMethod();
    HeaderLine(InternalTestMethodBefore, 10, ["TestMethod"], ["internal"], 11, "        " + "internal" + " " + "void" + " " + "Method" + "()");
  }

  lemma InternalTestMethodHeaderAfter()
    ensures HeaderText(FixMethod(ScenarioMethod(["TestMethod"], ["internal"], 11, 8))) == "        " + "public" + " " + "void" + " " + "Method" + "()"
  {
    ScenarioHeader(["TestMethod"], ["internal"], 11);
    ScenarioHeader(["TestMethod"], ["public"], 11);
    ModifiersInternalFixed();
    HeaderPublicVoidMethod();
  }

  /** `internal void Method()` with [Fact], in a class without attribute: one diagnostic, at 10,23, whose message
      argument is "Method"; the document's header line is the method's. */
  lemma InternalFactReported(rule: Descriptor, isTestAttribute: string -> bool)
    requires ScenarioTestAttributes(isTestAttribute)
    ensures InternalFactBefore[9] == HeaderText(ScenarioMethod(["Fact"], ["internal"], 10, 8))
    ensures Analyze(rule, ScenarioMethod(["Fact"], ["internal"], 10, 8), isTestAttribute)
         == Some(Create(rule, Location(10, 23), ["Method"]))
  {
    InternalFactHeaderBefore();
    InternalMethodReported(rule, "Fact", 10, isTestAttribute);
  }

  /** `internal void Method()` with [Fact], in a class without attribute: the fix turns the test document into the expected one. */
  lemma InternalFactFixed()
    ensures FixDocument(InternalFactBefore, ScenarioMethod(["Fact"], ["internal"], 10, 8)) == Some(InternalFactAfter)
  {
    var m := ScenarioMethod(["Fact"], ["internal"], 10, 8);
    InternalFactHeaderBefore();
    InternalFactHeaderAfter();
    FixDocumentAt(InternalFactBefore, InternalFactAfter, m, "        " + "public" + " " + "void" + " " + "Method" + "()");
  }

  lemma InternalFactHeaderBefore()
    ensures InternalFactBefore[9] == HeaderText(ScenarioMethod(["Fact"], ["internal"], 10, 8))
  {
    HeaderInternalVoidMethod();
    HeaderLine(InternalFactBefore, 9, ["Fact"], ["internal"], 10, "        " + "internal" + " " + "void" + " " + "Method" + "()");
  }

  lemma InternalFactHeaderAfter()
    ensures HeaderText(FixMethod(ScenarioMethod(["Fact"], ["internal"], 10, 8))) == "        " + "public" + " " + "void" + " " + "Method" + "()"
  {
    ScenarioHeader(["Fact"], ["internal"], 10);
    ScenarioHeader(["Fact"], ["public"], 10);
    ModifiersInternalFixed();
    HeaderPublicVoidMethod();
  }

  /** `protected internal virtual void Method()` with [TestMethod]: one diagnostic, at 11,41, whose message
      argument is "Method"; the document's header line is the method's. */
  lemma ProtectedInternalVirtualReported(rule: Descriptor, isTestAttribute: string -> bool)
    requires ScenarioTestAttributes(isTestAttribute)
    ensures ProtectedInternalVirtualBefore[10] == HeaderText(ScenarioMethod(["TestMethod"], ["protected", "internal", "virtual"], 11, 8))
    ensures Analyze(rule, ScenarioMethod(["TestMethod"], ["protected", "internal", "virtual"], 11, 8), isTestAttribute)
         == Some(Create(rule, Location(11, 41), ["Method"]))
  {
    ProtectedInternalVirtualHeaderBefore();
    var m := ScenarioMethod(["TestMethod"], ["protected", "internal", "virtual"], 11, 8);
    assert HasTestAttribute(m, isTestAttribute) by { assert isTestAttribute(m.attributes[0]); }
    assert HeaderTokens(m) == ["protected", "internal", "virtual", "void", "Method"];
    assert Offset(["void", "Method"], 1) == 5;
    assert Offset(["virtual", "void", "Method"], 2) == 13;
    assert Offset(["internal", "virtual", "void", "Method"], 3) == 22;
    assert Offset(["protected", "internal", "virtual", "void", "Method"], 4) == 32;
  }

  /** `protected internal virtual void Method()` with [TestMethod]: the fix turns the test document into the expected one. */
  lemma ProtectedInternalVirtualFixed()
    ensures FixDocument(ProtectedInternalVirtualBefore, ScenarioMethod(["TestMethod"], ["protected", "internal", "virtual"], 11, 8)) == Some(ProtectedInternalVirtualAfter)
  {
    var m := ScenarioMethod(["TestMethod"], ["protected", "internal", "virtual"], 11, 8);
    ProtectedInternalVirtualHeaderBefore();
    ProtectedInternalVirtualHeaderAfter();
    FixDocumentAt(ProtectedInternalVirtualBefore, ProtectedInternalVirtualAfter, m, "        " + "public" + " " + "virtual" + " " + "void" + " " + "Method" + "()");
  }

  lemma ProtectedInternalVirtualHeaderBefore()
    ensures ProtectedInternalVirtualBefore[10] == HeaderText(ScenarioMethod(["TestMethod"], ["protected", "internal", "virtual"], 11, 8))
  {
    HeaderProtectedInternalVirtualVoidMethod();
    HeaderLine(ProtectedInternalVirtualBefore, 10, ["TestMethod"], ["protected", "internal", "virtual"], 11, "        " + "protected" + " " + "internal" + " " + "virtual" + " " + "void" + " " + "Method" + "()");
  }

  lemma ProtectedInternalVirtualHeaderAfter()
    ensures HeaderText(FixMethod(ScenarioMethod(["TestMethod"], ["protected", "internal", "virtual"], 11, 8))) == "        " + "public" + " " + "virtual" + " " + "void" + " " + "Method" + "()"
  {
    ScenarioHeader(["TestMethod"], ["protected", "internal", "virtual"], 11);
    ScenarioHeader(["TestMethod"], ["public", "virtual"], 11);
    ModifiersProtectedInternalVirtualFixed();
    HeaderPublicVirtualVoidMethod();
  }

  /** `internal virtual void Method()` with [TestMethod]: one diagnostic, at 11,31, whose message
      argument is "Method"; the document's header line is the method's. */
  lemma InternalVirtualReported(rule: Descriptor, isTestAttribute: string -> bool)
    requires ScenarioTestAttributes(isTestAttribute)
    ensures InternalVirtualBefore[10] == HeaderText(ScenarioMethod(["TestMethod"], ["internal", "virtual"], 11, 8))
    ensures Analyze(rule, ScenarioMethod(["TestMethod"], ["internal", "virtual"], 11, 8), isTestAttribute)
         == Some(Create(rule, Location(11, 31), ["Method"]))
  {
    InternalVirtualHeaderBefore();
    var m := ScenarioMethod(["TestMethod"], ["internal", "virtual"], 11, 8);
    assert HasTestAttribute(m, isTestAttribute) by { assert isTestAttribute(m.attributes[0]); }
    assert HeaderTokens(m) == ["internal", "virtual", "void", "Method"];
    assert Offset(["void", "Method"], 1) == 5;
    assert Offset(["virtual", "void", "Method"], 2) == 13;
    assert Offset(["internal", "virtual", "void", "Method"], 3) == 22;
  }

  /** `internal virtual void Method()` with [TestMethod]: the fix turns the test document into the expected one. */
  lemma InternalVirtualFixed()
    ensures FixDocument(InternalVirtualBefore, ScenarioMethod(["TestMethod"], ["internal", "virtual"], 11, 8)) == Some(InternalVirtualAfter)
  {
    var m := ScenarioMethod(["TestMethod"], ["internal", "virtual"], 11, 8);
    InternalVirtualHeaderBefore();
    InternalVirtualHeaderAfter();
    FixDocumentAt(InternalVirtualBefore, InternalVirtualAfter, m, "        " + "public" + " " + "virtual" + " " + "void" + " " + "Method" + "()");
  }

  lemma InternalVirtualHeaderBefore()
    ensures InternalVirtualBefore[10] == HeaderText(ScenarioMethod(["TestMethod"], ["internal", "virtual"], 11, 8))
  {
    HeaderInternalVirtualVoidMethod();
    HeaderLine(InternalVirtualBefore, 10, ["TestMethod"], ["internal", "virtual"], 11, "        " + "internal" + " " + "virtual" + " " + "void" + " " + "Method" + "()");
  }

  lemma InternalVirtualHeaderAfter()
    ensures HeaderText(FixMethod(ScenarioMethod(["TestMethod"], ["internal", "virtual"], 11, 8))) == "        " + "public" + " " + "virtual" + " " + "void" + " " + "Method" + "()"
  {
    ScenarioHeader(["TestMethod"], ["internal", "virtual"], 11);
    ScenarioHeader(["TestMethod"], ["public", "virtual"], 11);
    ModifiersInternalVirtualFixed();
    HeaderPublicVirtualVoidMethod();
  }

  /** `void Method()` with [Test] and no modifier: one diagnostic, at 11,14, whose message
      argument is "Method"; the document's header line is the method's. */
  lemma NoModifierReported(rule: Descriptor, isTestAttribute: string -> bool)
    requires ScenarioTestAttributes(isTestAttribute)
    ensures NoModifierBefore[10] == HeaderText(ScenarioMethod(["Test"], [], 11, 8))
    ensures Analyze(rule, ScenarioMethod(["Test"], [], 11, 8), isTestAttribute)
         == Some(Create(rule, Location(11, 14), ["Method"]))
  {
    NoModifierHeaderBefore();
    var m := ScenarioMethod(["Test"], [], 11, 8);
    assert HasTestAttribute(m, isTestAttribute) by { assert isTestAttribute(m.attributes[0]); }
    assert HeaderTokens(m) == ["void", "Method"];
    assert Offset(["void", "Method"], 1) == 5;
  }

  /** `void Method()` with [Test] and no modifier: the fix turns the test document into the expected one. */
  lemma NoModifierFixed()
    ensures FixDocument(NoModifierBefore, ScenarioMethod(["Test"], [], 11, 8)) == Some(NoModifierAfter)
  {
    var m := ScenarioMethod(["Test"], [], 11, 8);
    NoModifierHeaderBefore();
    NoModifierHeaderAfter();
    FixDocumentAt(NoModifierBefore, NoModifierAfter, m, "        " + "public" + " " + "void" + " " + "Method" + "()");
  }

  lemma NoModifierHeaderBefore()
    ensures NoModifierBefore[10] == HeaderText(ScenarioMethod(["Test"], [], 11, 8))
  {
    HeaderVoidMethod();
    HeaderLine(NoModifierBefore, 10, ["Test"], [], 11, "        " + "void" + " " + "Method" + "()");
  }

  lemma NoModifierHeaderAfter()
    ensures HeaderText(FixMethod(ScenarioMethod(["Test"], [], 11, 8))) == "        " + "public" + " " + "void" + " " + "Method" + "()"
  {
    ScenarioHeader(["Test"], [], 11);
    ScenarioHeader(["Test"], ["public"], 11);
    ModifiersNoneFixed();
    HeaderPublicVoidMethod();
  }

  // ---- TestMethodWithoutPublicModifierTests ----

  /** An `internal void Method()` declaration carrying any test attribute
      is reported once, with "Method" as the message argument, and the fix
      makes it `public`, after which it is no longer reported. */
  lemma InternalTestMethodReportedAndFixed(rule: Descriptor, attribute: string, line: nat,
                                           isTestAttribute: string -> bool)
    requires isTestAttribute(attribute)
    ensures var m := ScenarioMethod([attribute], ["internal"], line, 8);
            Analyze(rule, m, isTestAttribute).Some? &&
            Analyze(rule, m, isTestAttribute).value.arguments == ["Method"] &&
            FixMethod(m).modifiers == ["public"] &&
            Analyze(rule, FixMethod(m), isTestAttribute) == None
  {
    var m := ScenarioMethod([attribute], ["internal"], line, 8);
    assert HasTestAttribute(m, isTestAttribute) by { assert isTestAttribute(m.attributes[0]); }
    ModifiersInternalFixed();
    FixResolvesDiagnostic(rule, m, isTestAttribute);
  }

  /** A public method is not reported, whatever its attributes, as with
      [Test], [TestMethod], [Fact] and [Ignore] [Test] under the newer
      harness, which checks messages but not locations. */
  lemma PublicMethodNotReported(rule: Descriptor, attributes: seq<string>, modifiers: seq<string>,
                                line: nat, indent: nat, isTestAttribute: string -> bool)
    requires "public" in modifiers
    ensures Analyze(rule, ScenarioMethod(attributes, modifiers, line, indent), isTestAttribute) == None
  {
  }

  /** A method none of whose attributes is a test attribute is not
      reported, whatever its modifiers, as with `private static` and no
      attribute at all. */
  lemma UntaggedMethodNotReported(rule: Descriptor, attributes: seq<string>, modifiers: seq<string>,
                                  line: nat, indent: nat, isTestAttribute: string -> bool)
    requires forall i :: 0 <= i < |attributes| ==> !isTestAttribute(attributes[i])
    ensures Analyze(rule, ScenarioMethod(attributes, modifiers, line, indent), isTestAttribute) == None
  {
  }

  // ---- the header lines of the scenario methods ----

  lemma HeaderInternalVoidMethod()
    ensures "        " + Join(["internal"] + ["void", "Method"]) + "()" == "        " + "internal" + " " + "void" + " " + "Method" + "()"
  {
    var t := ["internal", "void", "Method"];
    assert ["internal"] + ["void", "Method"] == t;
    assert t[1..] == ["void", "Method"];
  }

  lemma HeaderPublicVoidMethod()
    ensures "        " + Join(["public"] + ["void", "Method"]) + "()" == "        " + "public" + " " + "void" + " " + "Method" + "()"
  {
    var t := ["public", "void", "Method"];
    assert ["public"] + ["void", "Method"] == t;
    assert t[1..] == ["void", "Method"];
  }

  lemma HeaderProtectedInternalVirtualVoidMethod()
    ensures "        " + Join(["protected", "internal", "virtual"] + ["void", "Method"]) + "()" == "        " + "protected" + " " + "internal" + " " + "virtual" + " " + "void" + " " + "Method" + "()"
  {
    var t := ["protected", "internal", "virtual", "void", "Method"];
    assert ["protected", "internal", "virtual"] + ["void", "Method"] == t;
    assert t[1..] == ["internal", "virtual", "void", "Method"];
    assert t[1..][1..] == ["virtual", "void", "Method"];
    assert t[1..][1..][1..] == ["void", "Method"];
  }

  lemma HeaderPublicVirtualVoidMethod()
    ensures "        " + Join(["public", "virtual"] + ["void", "Method"]) + "()" == "        " + "public" + " " + "virtual" + " " + "void" + " " + "Method" + "()"
  {
    var t := ["public", "virtual", "void", "Method"];
    assert ["public", "virtual"] + ["void", "Method"] == t;
    assert t[1..] == ["virtual", "void", "Method"];
    assert t[1..][1..] == ["void", "Method"];
  }

  lemma HeaderInternalVirtualVoidMethod()
    ensures "        " + Join(["internal", "virtual"] + ["void", "Method"]) + "()" == "        " + "internal" + " " + "virtual" + " " + "void" + " " + "Method" + "()"
  {
    var t := ["internal", "virtual", "void", "Method"];
    assert ["internal", "virtual"] + ["void", "Method"] == t;
    assert t[1..] == ["virtual", "void", "Method"];
    assert t[1..][1..] == ["void", "Method"];
  }

  lemma HeaderVoidMethod()
    ensures "        " + Join([] + ["void", "Method"]) + "()" == "        " + "void" + " " + "Method" + "()"
  {
    var t := ["void", "Method"];
    assert [] + ["void", "Method"] == t;
  }

}
