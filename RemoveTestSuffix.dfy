/** The Remove-Test-suffix analyzer: a test method whose name ends in
    "Test" (ignoring case) gets a warning at its identifier, with the
    identifier as the message argument. */
module RemoveTestSuffix {
  import opened Wrappers
  import opened Ascii
  import opened Diagnostics
  import opened Syntax

  /** The rule descriptor: id RemoveTestSuffix, a warning, enabled by default. */
  const Rule: Descriptor := Descriptor("RemoveTestSuffix", Warning, true)

  /** The descriptors the analyzer declares: its single rule, a warning
      with id RemoveTestSuffix that is enabled by default. */
  function SupportedDiagnostics(): (r: seq<Descriptor>)
    ensures |r| == 1
    ensures r[0].id == "RemoveTestSuffix" && r[0].severity == Warning && r[0].enabledByDefault
  {
    [Rule]
  }

  /** The node kinds the analyzer registers its action for. */
  const RegisteredKinds: set<SyntaxKind> := {MethodDeclaration}

  /** The analyzer's action on one method declaration. */
  function AnalyzeNode(m: MethodDecl, isTestAttribute: string -> bool): (r: Option<Diagnostic>)
    ensures r.Some? <==> EndsWithIgnoreCase(m.identifier, "Test") && HasTestAttribute(m, isTestAttribute)
    ensures r.Some? ==> r.value.id == "RemoveTestSuffix" && r.value.severity == Warning
    ensures r.Some? ==> r.value.location == IdentifierLocation(m) && r.value.arguments == [m.identifier]
  {
    if !EndsWithIgnoreCase(m.identifier, "Test") then None
    else if !HasTestAttribute(m, isTestAttribute) then None
    else Some(Create(Rule, IdentifierLocation(m), [m.identifier]))
  }

  /** What the host reports for a sequence of nodes it visits: the action
      runs on the nodes of a registered kind only, one node at a time. */
  function AnalyzeNodes(nodes: seq<Node>, isTestAttribute: string -> bool): (r: seq<Diagnostic>)
    ensures |r| <= |nodes|
    ensures forall i :: 0 <= i < |r| ==> r[i].id == "RemoveTestSuffix" && r[i].severity == Warning
  {
    if nodes == [] then [] else Visit(nodes[0], isTestAttribute) + AnalyzeNodes(nodes[1..], isTestAttribute)
  }

  /** Every reported diagnostic is the action's result on some method node. */
  lemma {:induction false} AnalyzeNodesSound(nodes: seq<Node>, isTestAttribute: string -> bool, d: Diagnostic)
    requires d in AnalyzeNodes(nodes, isTestAttribute)
    ensures exists i :: 0 <= i < |nodes| && nodes[i].MethodNode? && AnalyzeNode(nodes[i].decl, isTestAttribute) == Some(d)
  {
    if d !in Visit(nodes[0], isTestAttribute) {
      AnalyzeNodesSound(nodes[1..], isTestAttribute, d);
      var i :| 0 <= i < |nodes[1..]| && nodes[1..][i].MethodNode? && AnalyzeNode(nodes[1..][i].decl, isTestAttribute) == Some(d);
      assert nodes[i + 1] == nodes[1..][i];
    }
  }

  /** Every method node the action reports on has its diagnostic in the
      result. */
  lemma {:induction false} AnalyzeNodesComplete(nodes: seq<Node>, isTestAttribute: string -> bool, i: nat)
    requires i < |nodes| && nodes[i].MethodNode? && AnalyzeNode(nodes[i].decl, isTestAttribute).Some?
    ensures AnalyzeNode(nodes[i].decl, isTestAttribute).value in AnalyzeNodes(nodes, isTestAttribute)
  {
    if i > 0 {
      assert nodes[1..][i - 1] == nodes[i];
      AnalyzeNodesComplete(nodes[1..], isTestAttribute, i - 1);
    }
  }

  /** The diagnostics one visited node contributes. */
  function Visit(n: Node, isTestAttribute: string -> bool): (r: seq<Diagnostic>)
    ensures r == if n.MethodNode? && AnalyzeNode(n.decl, isTestAttribute).Some?
                 then [AnalyzeNode(n.decl, isTestAttribute).value] else []
  {
    if n.Kind() in RegisteredKinds then
      match AnalyzeNode(n.decl, isTestAttribute)
      case None => []
      case Some(d) => [d]
    else []
  }

  /** Only method declarations can produce this diagnostic. */
  lemma {:induction false} OnlyMethodDeclarationsReport(nodes: seq<Node>, isTestAttribute: string -> bool)
    requires forall i :: 0 <= i < |nodes| ==> nodes[i].Kind() != MethodDeclaration
    ensures AnalyzeNodes(nodes, isTestAttribute) == []
  {
    if nodes != [] {
      OnlyMethodDeclarationsReport(nodes[1..], isTestAttribute);
    }
  }

  /** The analyzer keeps no state between nodes: analysing two runs of
      nodes one after the other reports what each run reports, in order. */
  lemma {:induction false} AnalyzeNodesCompositional(a: seq<Node>, b: seq<Node>, isTestAttribute: string -> bool)
    ensures AnalyzeNodes(a + b, isTestAttribute) == AnalyzeNodes(a, isTestAttribute) + AnalyzeNodes(b, isTestAttribute)
  {
    if a != [] {
      assert (a + b)[0] == a[0];
      assert (a + b)[1..] == a[1..] + b;
      AnalyzeNodesCompositional(a[1..], b, isTestAttribute);
      var v := Visit(a[0], isTestAttribute);
      calc {
        AnalyzeNodes(a + b, isTestAttribute);
        v + AnalyzeNodes(a[1..] + b, isTestAttribute);
        v + (AnalyzeNodes(a[1..], isTestAttribute) + AnalyzeNodes(b, isTestAttribute));
        (v + AnalyzeNodes(a[1..], isTestAttribute)) + AnalyzeNodes(b, isTestAttribute);
      }
    } else {
      assert a + b == b;
    }
  }

  /** The reported location points at the message argument: reading the
      header line from the diagnostic's column yields the identifier text. */
  lemma ReportedLocationHoldsArgument(m: MethodDecl, isTestAttribute: string -> bool)
    requires AnalyzeNode(m, isTestAttribute).Some?
    ensures var d := AnalyzeNode(m, isTestAttribute).value;
            d.location.line == m.line &&
            d.location.column - 1 + |d.arguments[0]| <= |HeaderText(m)| &&
            HeaderText(m)[d.location.column - 1..d.location.column - 1 + |d.arguments[0]|] == d.arguments[0]
  {
    IdentifierAtLocation(m);
  }

  /** Renaming a method to a variant of its name that differs only in case
      does not change whether it is reported. */
  lemma AnalyzeIgnoresCase(m: MethodDecl, name: string, isTestAttribute: string -> bool)
    requires Lower(name) == Lower(m.identifier)
    ensures AnalyzeNode(m.(identifier := name), isTestAttribute).Some? <==> AnalyzeNode(m, isTestAttribute).Some?
  {
    EndsWithIgnoreCaseOnlySeesFolding(name, m.identifier, "Test");
  }

  /** A test method whose name is any prefix followed by some casing of
      "test" is reported. */
  lemma AnyPrefixWithTestSuffixReported(m: MethodDecl, prefix: string, tail: string, isTestAttribute: string -> bool)
    requires m.identifier == prefix + tail && Lower(tail) == "test"
    requires HasTestAttribute(m, isTestAttribute)
    ensures AnalyzeNode(m, isTestAttribute).Some?
  {
    assert Lower("Test") == "test";
    EndsWithIgnoreCaseSplit(prefix, tail, "Test");
  }

  /** "MethodTest", "Methodtest" and "MethodTEST" are reported on a method
      carrying a test attribute. */
  lemma SuffixInAnyCaseReported(isTestAttribute: string -> bool)
    requires ScenarioTestAttributes(isTestAttribute)
    ensures AnalyzeNode(ExampleMethod(["Test"], "MethodTest"), isTestAttribute).Some?
    ensures AnalyzeNode(ExampleMethod(["TestMethod"], "Methodtest"), isTestAttribute).Some?
    ensures AnalyzeNode(ExampleMethod(["Fact"], "MethodTEST"), isTestAttribute).Some?
  {
    assert isTestAttribute(ExampleMethod(["Test"], "MethodTest").attributes[0]);
    assert isTestAttribute(ExampleMethod(["TestMethod"], "Methodtest").attributes[0]);
    assert isTestAttribute(ExampleMethod(["Fact"], "MethodTEST").attributes[0]);
    AnyPrefixWithTestSuffixReported(ExampleMethod(["Test"], "MethodTest"), "Method", "Test", isTestAttribute);
    AnyPrefixWithTestSuffixReported(ExampleMethod(["TestMethod"], "Methodtest"), "Method", "test", isTestAttribute);
    AnyPrefixWithTestSuffixReported(ExampleMethod(["Fact"], "MethodTEST"), "Method", "TEST", isTestAttribute);
  }

  /** A name that only starts with "Test" is not reported. */
  lemma PrefixNameNotReported(isTestAttribute: string -> bool)
    requires ScenarioTestAttributes(isTestAttribute)
    ensures AnalyzeNode(ExampleMethod(["Test"], "TestMethod"), isTestAttribute) == None
  {
    assert "TestMethod"[6..] == "thod";
    assert Lower("thod")[1] == 'h' && Lower("Test")[1] == 'e';
  }

  /** A name ending in "Test" is not reported on a method without
      attributes or with only [Ignore]. */
  lemma NonTestMethodsNotReported(isTestAttribute: string -> bool)
    requires ScenarioTestAttributes(isTestAttribute)
    ensures AnalyzeNode(ExampleMethod([], "MethodTest"), isTestAttribute) == None
    ensures AnalyzeNode(ExampleMethod(["Ignore"], "MethodTest"), isTestAttribute) == None
  {
    assert !isTestAttribute(ExampleMethod(["Ignore"], "MethodTest").attributes[0]);
  }

  /** A `public void` method on the first line, as the lemmas above use. */
  function ExampleMethod(attributes: seq<string>, identifier: string): MethodDecl
  {
    MethodDecl(attributes, ["public"], "void", identifier, "()", 1, 0)
  }
}
