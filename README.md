# VSDiagnostics rules in Dafny

A model of three rules from VSDiagnostics, a set of Roslyn analyzers and code
fixes for C#. Each rule is stated over a small record of the syntax it looks
at, and its properties are proved.

- **Remove the Test suffix** (`RemoveTestSuffixAnalyzer`). A method whose
  identifier ends in `Test`, in any case, and that carries a test attribute
  gets a warning. The warning sits at the identifier and its message argument
  is the identifier text. The analyzer registers for method declarations only.
- **A test method must be public.** A method with a test attribute and no
  `public` modifier is reported at its identifier. The fix replaces all
  accessibility modifiers by one `public`, placed where the first of them
  stood, or in front when there was none. Every other modifier is kept, in
  order. The implementation is not part of this model; the rule is taken from
  the two scenario classes that pin it.
- **No `if` or `else` without braces.** Each clause that is a single
  statement, not a block, is reported at its `if` or `else` keyword, in
  source order. The fix wraps every such clause in a block and keeps the
  trivia that stood before the statement in front of the new opening brace.
  This rule too is taken from its scenario class.

Modules:

| module | contents |
|---|---|
| `Wrappers` | `Option` |
| `Ascii` | ASCII case folding and the case-insensitive suffix test |
| `Diagnostics` | severities, locations, descriptors and diagnostics; source order and subsequences of locations |
| `Syntax` | node kinds, method declarations and the single-line layout of a method header |
| `RemoveTestSuffix` | the analyzer and the host that visits nodes |
| `TestMethodWithoutPublicModifier` | the public-modifier rule and its fix |
| `TestMethodWithoutPublicModifierScenarios` | the scenarios of both test classes for it, down to the text of each test document |
| `IfStatementWithoutBraces` | if/else statements, the brace rule and its fix |
| `IfStatementWithoutBracesScenarios` | its scenarios, with the keyword positions read off the test documents |

A method header lies on one line. It is indented by `indent` spaces, its
tokens are separated by single spaces, and the parameter list is written
directly after the identifier. So the one-based identifier column is the
indentation, plus each earlier token's length plus one, plus one. This gives
the columns 23, 41, 31 and 14 that the scenarios expect. In the scenario
lemmas each test document is a sequence of lines, and the header line is
written as its indentation, its tokens and its parameter list.

Two things the source does not show are parameters of the model. The test
framework's attribute query is `isTestAttribute: string -> bool`, and a method
has a test attribute when any of its attributes passes. The scenario lemmas
take `Test`, `TestMethod` and `Fact` to pass, as the reported scenarios show.
They also assume that `Ignore` does not pass. The scenarios do not show this:
they use `Ignore` only next to `[Test]` on a public method, which is clean
either way. The descriptor of each of the two unshown rules is a
parameter `rule`, since the tests only compare against the analyzer's own
constants.

## Model

| member | source | states |
|---|---|---|
| RemoveTestSuffix.AnalyzeNode | VSDiagnostics/VSDiagnostics/VSDiagnostics/Diagnostics/Tests/RemoveTestSuffix/RemoveTestSuffixAnalyzer.cs:27-42 | A diagnostic is produced exactly when the name ends in "Test" ignoring case and the method has a test attribute. It is a RemoveTestSuffix warning at the identifier's location, with the identifier as its only argument. |
| RemoveTestSuffix.SupportedDiagnostics | VSDiagnostics/VSDiagnostics/VSDiagnostics/Diagnostics/Tests/RemoveTestSuffix/RemoveTestSuffixAnalyzer.cs:14-23 | The analyzer declares one descriptor: id RemoveTestSuffix, severity Warning, enabled by default. |
| RemoveTestSuffix.Visit | VSDiagnostics/VSDiagnostics/VSDiagnostics/Diagnostics/Tests/RemoveTestSuffix/RemoveTestSuffixAnalyzer.cs:25 | A visited node contributes the action's diagnostic if it is a method declaration the action reports, and nothing otherwise. |
| RemoveTestSuffix.AnalyzeNodes | VSDiagnostics/VSDiagnostics/VSDiagnostics/Diagnostics/Tests/RemoveTestSuffix/RemoveTestSuffixAnalyzer.cs:25 | A run of nodes yields at most one diagnostic per node, and each is a RemoveTestSuffix warning. |
| RemoveTestSuffix.OnlyMethodDeclarationsReport | VSDiagnostics/VSDiagnostics/VSDiagnostics/Diagnostics/Tests/RemoveTestSuffix/RemoveTestSuffixAnalyzer.cs:25 | A run of nodes none of which is a method declaration yields no diagnostic. |
| RemoveTestSuffix.AnalyzeNodesSound | VSDiagnostics/VSDiagnostics/VSDiagnostics/Diagnostics/Tests/RemoveTestSuffix/RemoveTestSuffixAnalyzer.cs:25-42 | Every reported diagnostic is the action's result on some method node of the run. |
| RemoveTestSuffix.AnalyzeNodesComplete | VSDiagnostics/VSDiagnostics/VSDiagnostics/Diagnostics/Tests/RemoveTestSuffix/RemoveTestSuffixAnalyzer.cs:25-42 | Every method node the action reports on has its diagnostic in the run's result. |
| RemoveTestSuffix.AnalyzeNodesCompositional | VSDiagnostics/VSDiagnostics/VSDiagnostics/Diagnostics/Tests/RemoveTestSuffix/RemoveTestSuffixAnalyzer.cs:27-42 | The analyzer keeps no state: analysing two runs back to back reports what each run reports, in order. |
| RemoveTestSuffix.ReportedLocationHoldsArgument | VSDiagnostics/VSDiagnostics/VSDiagnostics/Diagnostics/Tests/RemoveTestSuffix/RemoveTestSuffixAnalyzer.cs:41 | The reported line is the method's line. Reading the header from the reported column yields exactly the message argument. |
| RemoveTestSuffix.AnalyzeIgnoresCase | VSDiagnostics/VSDiagnostics/VSDiagnostics/Diagnostics/Tests/RemoveTestSuffix/RemoveTestSuffixAnalyzer.cs:31-34 | Renaming a method to a name that differs only in case does not change whether it is reported. |
| RemoveTestSuffix.AnyPrefixWithTestSuffixReported | VSDiagnostics/VSDiagnostics/VSDiagnostics/Diagnostics/Tests/RemoveTestSuffix/RemoveTestSuffixAnalyzer.cs:31-41 | A test method named any prefix followed by some casing of "test" is reported. |
| RemoveTestSuffix.SuffixInAnyCaseReported | VSDiagnostics/VSDiagnostics/VSDiagnostics/Diagnostics/Tests/RemoveTestSuffix/RemoveTestSuffixAnalyzer.cs:31-41 | MethodTest with [Test], Methodtest with [TestMethod] and MethodTEST with [Fact] are each reported. |
| RemoveTestSuffix.PrefixNameNotReported | VSDiagnostics/VSDiagnostics/VSDiagnostics/Diagnostics/Tests/RemoveTestSuffix/RemoveTestSuffixAnalyzer.cs:31-34 | A name that starts with "Test" but does not end with it is not reported. |
| RemoveTestSuffix.NonTestMethodsNotReported | VSDiagnostics/VSDiagnostics/VSDiagnostics/Diagnostics/Tests/RemoveTestSuffix/RemoveTestSuffixAnalyzer.cs:36-39 | MethodTest without attributes is not reported. With only [Ignore] it is not reported either; this second case rests on the assumption that Ignore is not a test attribute. |
| Ascii.LowerSuffix | VSDiagnostics/VSDiagnostics/VSDiagnostics/Diagnostics/Tests/RemoveTestSuffix/RemoveTestSuffixAnalyzer.cs:31 | Folding a string and then taking a suffix is the same as taking the suffix and then folding it. |
| Ascii.EndsWithIgnoreCaseOnlySeesFolding | VSDiagnostics/VSDiagnostics/VSDiagnostics/Diagnostics/Tests/RemoveTestSuffix/RemoveTestSuffixAnalyzer.cs:31 | Two strings with the same folding agree on every case-insensitive suffix test. |
| Ascii.EndsWithIgnoreCaseSplit | VSDiagnostics/VSDiagnostics/VSDiagnostics/Diagnostics/Tests/RemoveTestSuffix/RemoveTestSuffixAnalyzer.cs:31 | prefix + tail ends with a word, ignoring case, when tail folds to the word's folding; conversely, a tail of the word's length that passes the test folds to it. |
| Syntax.IdentifierColumn | VSDiagnostics/VSDiagnostics/VSDiagnostics.Test/Tests/Tests/TestMethodWithoutPublicModifierAnalyzerTests.cs:118-129 | The identifier column is the indentation, plus each modifier and the return type with one space after each, plus one. |
| Syntax.IdentifierAtLocation | VSDiagnostics/VSDiagnostics/VSDiagnostics/Diagnostics/Tests/RemoveTestSuffix/RemoveTestSuffixAnalyzer.cs:41 | The identifier location lies within the header line, and the characters there are the identifier. |
| Syntax.ReplaceTokenText | VSDiagnostics/VSDiagnostics/VSDiagnostics.Test/Tests/Tests/TestMethodWithoutPublicModifierAnalyzerTests.cs:84-116 | Replacing one token changes the joined text only between that token's start and end. |
| Syntax.HeaderTextAfterTokenUpdate | VSDiagnostics/VSDiagnostics/VSDiagnostics.Test/Tests/Tests/TestMethodWithoutPublicModifierAnalyzerTests.cs:84-116 | Rewriting one header token rewrites exactly that token's characters of the header line. |
| TestMethodWithoutPublicModifier.Analyze | VSDiagnostics/VSDiagnostics/VSDiagnostics.Test/Tests/Tests/TestMethodWithoutPublicModifierAnalyzerTests.cs:82-132 | A diagnostic is produced exactly when the method has a test attribute and no public modifier. It carries the rule's id and severity, sits at the identifier and has the identifier as its argument. |
| TestMethodWithoutPublicModifier.FixMethod | VSDiagnostics/VSDiagnostics/VSDiagnostics.Test/Tests/Tests/TestMethodWithoutPublicModifierAnalyzerTests.cs:263-313 | Only the modifiers change, and they become FixModifiers of the original. The fixed list's one accessibility modifier is public and takes the place of the first accessibility modifier, or goes in front when there is none. Everything before that place is kept, and the other modifiers are those of the original, in order. Attributes, return type, identifier, parameters, line and indentation are kept. |
| TestMethodWithoutPublicModifier.FixModifiers | VSDiagnostics/VSDiagnostics/VSDiagnostics.Test/Tests/Tests/TestMethodWithoutPublicModifierAnalyzerTests.cs:263-313 | The only accessibility modifier of the result is public. The other modifiers are kept in order. Everything before the first accessibility modifier (or before the front) is kept, and public follows it. |
| TestMethodWithoutPublicModifier.InsertionPoint | VSDiagnostics/VSDiagnostics/VSDiagnostics.Test/Tests/Tests/TestMethodWithoutPublicModifierAnalyzerTests.cs:369-419 | public goes at the first accessibility modifier, or at the front when there is none. |
| TestMethodWithoutPublicModifier.FixDocument | VSDiagnostics/VSDiagnostics/VSDiagnostics.Test/Tests/Tests/TestMethodWithoutPublicModifierAnalyzerTests.cs:84-116 | The fix applies exactly when the method's line holds its header. It then replaces that line by the fixed header and keeps every other line. |
| TestMethodWithoutPublicModifier.FixResolvesDiagnostic | VSDiagnostics/VSDiagnostics/VSDiagnostics.Test/Tests/Tests/TestMethodWithoutPublicModifierTests.cs:85-123 | After the fix the method is never reported again. |
| TestMethodWithoutPublicModifier.FixReplacesSoleAccessibility | VSDiagnostics/VSDiagnostics/VSDiagnostics.Test/Tests/Tests/TestMethodWithoutPublicModifierAnalyzerTests.cs:316-366 | With a single accessibility modifier, the fix replaces just that one by public and keeps every other modifier in place. |
| TestMethodWithoutPublicModifier.FixLeadingAccessibility | VSDiagnostics/VSDiagnostics/VSDiagnostics.Test/Tests/Tests/TestMethodWithoutPublicModifierTests.cs:230-350 | Accessibility modifiers in front of the others, or none at all, become one leading public, followed by the others unchanged. |
| TestMethodWithoutPublicModifier.FixModifiersIdempotent | VSDiagnostics/VSDiagnostics/VSDiagnostics.Test/Tests/Tests/TestMethodWithoutPublicModifierTests.cs:85-350 | Fixing a fixed modifier list changes nothing. |
| TestMethodWithoutPublicModifier.FixOnlyRewritesAccessibilityToken | VSDiagnostics/VSDiagnostics/VSDiagnostics.Test/Tests/Tests/TestMethodWithoutPublicModifierAnalyzerTests.cs:84-116 | With a single accessibility modifier, the fixed header line is the original with only that token's characters replaced by public. |
| TestMethodWithoutPublicModifier.OnlyOneAccessibility | VSDiagnostics/VSDiagnostics/VSDiagnostics.Test/Tests/Tests/TestMethodWithoutPublicModifierAnalyzerTests.cs:263-313 | A list with accessibility modifiers at two different indices has at least two entries in its accessibility filter. |
| TestMethodWithoutPublicModifierScenarios.PublicTestMethodsNotReported | VSDiagnostics/VSDiagnostics/VSDiagnostics.Test/Tests/Tests/TestMethodWithoutPublicModifierAnalyzerTests.cs:14-79 | Public methods with [Test], [TestMethod] and [Fact] are not reported. |
| TestMethodWithoutPublicModifierScenarios.PublicWithSeveralAttributesNotReported | VSDiagnostics/VSDiagnostics/VSDiagnostics.Test/Tests/Tests/TestMethodWithoutPublicModifierAnalyzerTests.cs:239-260 | A public method with [Ignore] and [Test] is not reported. |
| TestMethodWithoutPublicModifierScenarios.NonTestMethodNotReported | VSDiagnostics/VSDiagnostics/VSDiagnostics.Test/Tests/Tests/TestMethodWithoutPublicModifierAnalyzerTests.cs:422-440 | A private static method without attributes is not reported. |
| TestMethodWithoutPublicModifierScenarios.InternalMethodReported | VSDiagnostics/VSDiagnostics/VSDiagnostics.Test/Tests/Tests/TestMethodWithoutPublicModifierAnalyzerTests.cs:82-236 | An internal void Method() with any one test attribute, indented by 8, gives exactly the diagnostic at column 23 of its line with argument "Method". |
| TestMethodWithoutPublicModifierScenarios.InternalTestReported | VSDiagnostics/VSDiagnostics/VSDiagnostics.Test/Tests/Tests/TestMethodWithoutPublicModifierAnalyzerTests.cs:82-132 | internal void Method() with [Test] gives exactly the diagnostic at (11,23) with argument "Method". The document's header line is this method's header. |
| TestMethodWithoutPublicModifierScenarios.InternalTestFixed | VSDiagnostics/VSDiagnostics/VSDiagnostics.Test/Tests/Tests/TestMethodWithoutPublicModifierAnalyzerTests.cs:84-116 | The fix turns the test document into the expected document, line for line. |
| TestMethodWithoutPublicModifierScenarios.InternalTestMethodReported | VSDiagnostics/VSDiagnostics/VSDiagnostics.Test/Tests/Tests/TestMethodWithoutPublicModifierAnalyzerTests.cs:135-185 | internal with [TestMethod] gives exactly the diagnostic at (11,23) with argument "Method". The document's header line is this method's header. |
| TestMethodWithoutPublicModifierScenarios.InternalTestMethodFixed | VSDiagnostics/VSDiagnostics/VSDiagnostics.Test/Tests/Tests/TestMethodWithoutPublicModifierAnalyzerTests.cs:137-169 | The fix turns the test document into the expected document. |
| TestMethodWithoutPublicModifierScenarios.InternalFactReported | VSDiagnostics/VSDiagnostics/VSDiagnostics.Test/Tests/Tests/TestMethodWithoutPublicModifierAnalyzerTests.cs:188-236 | internal with [Fact] and no class attribute gives exactly the diagnostic at (10,23). The document's header line is this method's header. |
| TestMethodWithoutPublicModifierScenarios.InternalFactFixed | VSDiagnostics/VSDiagnostics/VSDiagnostics.Test/Tests/Tests/TestMethodWithoutPublicModifierAnalyzerTests.cs:190-220 | The fix turns the test document into the expected document. |
| TestMethodWithoutPublicModifierScenarios.ProtectedInternalVirtualReported | VSDiagnostics/VSDiagnostics/VSDiagnostics.Test/Tests/Tests/TestMethodWithoutPublicModifierAnalyzerTests.cs:263-313 | protected internal virtual with [TestMethod] gives exactly the diagnostic at (11,41). The document's header line is this method's header. |
| TestMethodWithoutPublicModifierScenarios.ProtectedInternalVirtualFixed | VSDiagnostics/VSDiagnostics/VSDiagnostics.Test/Tests/Tests/TestMethodWithoutPublicModifierAnalyzerTests.cs:265-297 | The fix turns the document into the one reading public virtual void Method(). |
| TestMethodWithoutPublicModifierScenarios.InternalVirtualReported | VSDiagnostics/VSDiagnostics/VSDiagnostics.Test/Tests/Tests/TestMethodWithoutPublicModifierAnalyzerTests.cs:316-366 | internal virtual with [TestMethod] gives exactly the diagnostic at (11,31). The document's header line is this method's header. |
| TestMethodWithoutPublicModifierScenarios.InternalVirtualFixed | VSDiagnostics/VSDiagnostics/VSDiagnostics.Test/Tests/Tests/TestMethodWithoutPublicModifierAnalyzerTests.cs:318-350 | The fix turns the document into the one reading public virtual void Method(). |
| TestMethodWithoutPublicModifierScenarios.NoModifierReported | VSDiagnostics/VSDiagnostics/VSDiagnostics.Test/Tests/Tests/TestMethodWithoutPublicModifierAnalyzerTests.cs:369-419 | void Method() with [Test] and no modifier gives exactly the diagnostic at (11,14). The document's header line is this method's header. |
| TestMethodWithoutPublicModifierScenarios.NoModifierFixed | VSDiagnostics/VSDiagnostics/VSDiagnostics.Test/Tests/Tests/TestMethodWithoutPublicModifierAnalyzerTests.cs:371-403 | The fix puts public in front of the return type, turning the document into the expected one. |
| TestMethodWithoutPublicModifierScenarios.ModifiersInternalFixed | VSDiagnostics/VSDiagnostics/VSDiagnostics.Test/Tests/Tests/TestMethodWithoutPublicModifierTests.cs:85-203 | internal becomes public. |
| TestMethodWithoutPublicModifierScenarios.ModifiersProtectedInternalVirtualFixed | VSDiagnostics/VSDiagnostics/VSDiagnostics.Test/Tests/Tests/TestMethodWithoutPublicModifierTests.cs:230-268 | protected internal virtual becomes public virtual. |
| TestMethodWithoutPublicModifierScenarios.ModifiersInternalVirtualFixed | VSDiagnostics/VSDiagnostics/VSDiagnostics.Test/Tests/Tests/TestMethodWithoutPublicModifierTests.cs:271-309 | internal virtual becomes public virtual, with virtual left in place. |
| TestMethodWithoutPublicModifierScenarios.ModifiersNoneFixed | VSDiagnostics/VSDiagnostics/VSDiagnostics.Test/Tests/Tests/TestMethodWithoutPublicModifierTests.cs:312-350 | An empty modifier list becomes public. |
| TestMethodWithoutPublicModifierScenarios.PublicMethodNotReported | VSDiagnostics/VSDiagnostics/VSDiagnostics.Test/Tests/Tests/TestMethodWithoutPublicModifierTests.cs:17-82 | A method with a public modifier is not reported, whatever its attributes, line and indentation. This covers [Test], [TestMethod] and [Fact], and [Ignore] with [Test] at lines 206-227. |
| TestMethodWithoutPublicModifierScenarios.UntaggedMethodNotReported | VSDiagnostics/VSDiagnostics/VSDiagnostics.Test/Tests/Tests/TestMethodWithoutPublicModifierTests.cs:353-371 | A method without a test attribute is not reported, whatever its modifiers, such as private static. |
| TestMethodWithoutPublicModifierScenarios.InternalTestMethodReportedAndFixed | VSDiagnostics/VSDiagnostics/VSDiagnostics.Test/Tests/Tests/TestMethodWithoutPublicModifierTests.cs:85-203 | An internal method with any test attribute is reported with argument "Method". The fix makes it public, and it is then no longer reported. |
| IfStatementWithoutBraces.NoDiagnosticIffBraced | VSDiagnostics/VSDiagnostics/VSDiagnostics.Test/Tests/General/IfStatementWithoutBracesAnalyzerTests.cs:171-191 | A statement yields no diagnostic exactly when every clause in it, at every depth, is a block. |
| IfStatementWithoutBraces.Diagnose | VSDiagnostics/VSDiagnostics/VSDiagnostics.Test/Tests/General/IfStatementWithoutBracesAnalyzerTests.cs:342-410 | The diagnostics are exactly one per clause that is not a block, at its if or else keyword, in the order of SingleKeywords. Each carries the rule's id and severity and no message argument. |
| IfStatementWithoutBraces.DiagnoseClause | VSDiagnostics/VSDiagnostics/VSDiagnostics.Test/Tests/General/IfStatementWithoutBracesAnalyzerTests.cs:194-251 | A clause gives one diagnostic at its keyword when it is a single statement, followed by that statement's; a block gives those of its statements. |
| IfStatementWithoutBraces.DiagnoseAll | VSDiagnostics/VSDiagnostics/VSDiagnostics.Test/Tests/General/IfStatementWithoutBracesAnalyzerTests.cs:14-63 | A list of statements gives, in order, one diagnostic per clause that is not a block in any of its statements, at that clause's keyword, each created from the rule. |
| IfStatementWithoutBraces.DiagnosticsAtSingleKeywords | VSDiagnostics/VSDiagnostics/VSDiagnostics.Test/Tests/General/IfStatementWithoutBracesAnalyzerTests.cs:342-410 | The diagnostic locations are exactly the keywords of the clauses that are single statements, in source order. |
| IfStatementWithoutBraces.DiagnosticsAtKeywords | VSDiagnostics/VSDiagnostics/VSDiagnostics.Test/Tests/General/IfStatementWithoutBracesAnalyzerTests.cs:342-410 | The diagnostic locations are among the statement's if/else keywords, in the same order. |
| IfStatementWithoutBraces.DiagnosticsInSourceOrder | VSDiagnostics/VSDiagnostics/VSDiagnostics.Test/Tests/General/IfStatementWithoutBracesAnalyzerTests.cs:342-410 | When the keywords stand in source order, the diagnostics are reported in source order. |
| IfStatementWithoutBraces.Fix | VSDiagnostics/VSDiagnostics/VSDiagnostics.Test/Tests/General/IfStatementWithoutBracesAnalyzerTests.cs:14-63 | A simple statement is kept. An if keeps its if keyword, its condition and whether it has an else, with the else keyword. Each clause becomes a block with the clause's leading trivia. |
| IfStatementWithoutBraces.FixClause | VSDiagnostics/VSDiagnostics/VSDiagnostics.Test/Tests/General/IfStatementWithoutBracesAnalyzerTests.cs:66-115 | A clause becomes a block with the same leading trivia. A single statement becomes the block of that statement fixed; a block keeps its statements, each fixed. |
| IfStatementWithoutBraces.FixAll | VSDiagnostics/VSDiagnostics/VSDiagnostics.Test/Tests/General/IfStatementWithoutBracesAnalyzerTests.cs:342-410 | A list of statements is fixed element by element, keeping its length. |
| IfStatementWithoutBraces.FixOnlyAddsBraces | VSDiagnostics/VSDiagnostics/VSDiagnostics.Test/Tests/General/IfStatementWithoutBracesAnalyzerTests.cs:194-251 | Each clause of a fixed if holds exactly the statements the original clause held, in order, each fixed. |
| IfStatementWithoutBraces.FixBraces | VSDiagnostics/VSDiagnostics/VSDiagnostics.Test/Tests/General/IfStatementWithoutBracesAnalyzerTests.cs:342-410 | After the fix every clause at every depth is a block. |
| IfStatementWithoutBraces.FixResolvesDiagnostics | VSDiagnostics/VSDiagnostics/VSDiagnostics.Test/Tests/General/IfStatementWithoutBracesAnalyzerTests.cs:342-410 | One pass of the fix leaves nothing to report. |
| IfStatementWithoutBraces.BracedUnchanged | VSDiagnostics/VSDiagnostics/VSDiagnostics.Test/Tests/General/IfStatementWithoutBracesAnalyzerTests.cs:194-251 | A fully braced statement is left as it is. |
| IfStatementWithoutBraces.UnreportedClauseUnchanged | VSDiagnostics/VSDiagnostics/VSDiagnostics.Test/Tests/General/IfStatementWithoutBracesAnalyzerTests.cs:194-251 | A clause that yields no diagnostic is left as it is by the fix. |
| IfStatementWithoutBraces.FixIdempotent | VSDiagnostics/VSDiagnostics/VSDiagnostics.Test/Tests/General/IfStatementWithoutBracesAnalyzerTests.cs:342-410 | Fixing a fixed statement changes nothing. |
| IfStatementWithoutBraces.FixKeepsKeywords | VSDiagnostics/VSDiagnostics/VSDiagnostics.Test/Tests/General/IfStatementWithoutBracesAnalyzerTests.cs:14-63 | The fix keeps every if and else keyword, with its position, in order. |
| IfStatementWithoutBraces.FixKeepsStatements | VSDiagnostics/VSDiagnostics/VSDiagnostics.Test/Tests/General/IfStatementWithoutBracesAnalyzerTests.cs:14-63 | The fix keeps every simple statement, in order. |
| IfStatementWithoutBraces.FixKeepsTrivia | VSDiagnostics/VSDiagnostics/VSDiagnostics.Test/Tests/General/IfStatementWithoutBracesAnalyzerTests.cs:66-115 | The fix keeps the leading trivia of every clause in order, now in front of the opening brace. |
| IfStatementWithoutBraces.DiagnoseIgnoresLayout | VSDiagnostics/VSDiagnostics/VSDiagnostics.Test/Tests/General/IfStatementWithoutBracesAnalyzerTests.cs:118-168 | Dropping whitespace and line breaks does not change the diagnostics. |
| IfStatementWithoutBraces.FixIgnoresLayout | VSDiagnostics/VSDiagnostics/VSDiagnostics.Test/Tests/General/IfStatementWithoutBracesAnalyzerTests.cs:118-168 | Setting layout aside commutes with the fix, so statements that differ only in layout are fixed alike. |
| IfStatementWithoutBraces.Comments | VSDiagnostics/VSDiagnostics/VSDiagnostics.Test/Tests/General/IfStatementWithoutBracesAnalyzerTests.cs:66-115 | The kept trivia are comments only, and every comment in the trivia is kept. |
| IfStatementWithoutBraces.CommentsConcat | VSDiagnostics/VSDiagnostics/VSDiagnostics.Test/Tests/General/IfStatementWithoutBracesAnalyzerTests.cs:66-115 | The comments of two trivia lists joined are the comments of each, in order, so none is moved or repeated. |
| IfStatementWithoutBracesScenarios.SameLineReportedAndFixed | VSDiagnostics/VSDiagnostics/VSDiagnostics.Test/Tests/General/IfStatementWithoutBracesAnalyzerTests.cs:14-63 | The document has if at (11,13). The statement gives exactly one diagnostic there, and the fix wraps its statement in a block. |
| IfStatementWithoutBracesScenarios.CommentKeptBeforeBrace | VSDiagnostics/VSDiagnostics/VSDiagnostics.Test/Tests/General/IfStatementWithoutBracesAnalyzerTests.cs:66-115 | There is one diagnostic at (11,13). After the fix the comment stands in front of the new block's brace, and the block holds the statement. |
| IfStatementWithoutBracesScenarios.NextLineReportedAndFixedAlike | VSDiagnostics/VSDiagnostics/VSDiagnostics.Test/Tests/General/IfStatementWithoutBracesAnalyzerTests.cs:118-168 | With the statement on the next line, the diagnostic is the same and the fix matches the same-line case apart from layout. |
| IfStatementWithoutBracesScenarios.BracedNotReported | VSDiagnostics/VSDiagnostics/VSDiagnostics.Test/Tests/General/IfStatementWithoutBracesAnalyzerTests.cs:171-191 | A braced if is not reported and the fix keeps it. |
| IfStatementWithoutBracesScenarios.ElseSameLineReportedAndFixed | VSDiagnostics/VSDiagnostics/VSDiagnostics.Test/Tests/General/IfStatementWithoutBracesAnalyzerTests.cs:194-251 | There is one diagnostic at the else keyword (15,13). Only the else clause is wrapped; the if block is kept. |
| IfStatementWithoutBracesScenarios.ElseNextLineReportedAndFixedAlike | VSDiagnostics/VSDiagnostics/VSDiagnostics.Test/Tests/General/IfStatementWithoutBracesAnalyzerTests.cs:254-312 | With the else statement on the next line, the diagnostic is the same and the fix matches the same-line case apart from layout. |
| IfStatementWithoutBracesScenarios.ElseBracedNotReported | VSDiagnostics/VSDiagnostics/VSDiagnostics.Test/Tests/General/IfStatementWithoutBracesAnalyzerTests.cs:315-339 | An if and an else that both have blocks are not reported. |
| IfStatementWithoutBracesScenarios.BothReportedInOrderAndFixed | VSDiagnostics/VSDiagnostics/VSDiagnostics.Test/Tests/General/IfStatementWithoutBracesAnalyzerTests.cs:342-410 | There are two diagnostics, if at (11,13) before else at (13,13), in source order. One fix pass braces both, leaving nothing to report. |

## Left out

- Roslyn itself: building descriptors, `RegisterSyntaxNodeAction`, `ImmutableArray`, `ReportDiagnostic` and the localized resource strings. A report is a returned `Diagnostic` value and a message is its argument list.
- The message texts and the category and title strings. They come from resources that are not part of this model.
- AnalyzeNode: the identifier comparison folds ASCII letters only. The culture-sensitive rules of `CurrentCultureIgnoreCase` are not modelled.
- The body of `HasTestAttribute` is not part of this model. It is the parameter `isTestAttribute`. The scenario lemmas constrain it by what the scenarios show, plus the assumption that `Ignore` is not a test attribute.
- RemoveTestSuffix.Rule: the id is `DiagnosticId.RemoveTestSuffix`, whose value is not part of this model; it is taken to be the constant's name, "RemoveTestSuffix".
- The ids and severities of the public-modifier rule and the brace rule are not shown, so both are the parameter `rule`.
- IfStatementWithoutBraces.Fix: the layout the formatter gives the fixed code (new line breaks, indentation, the dropped space after `else`) is not modelled. The fix is stated on the statement tree, keeps the keyword positions of the original, and scenario results are compared with whitespace and line breaks set aside.
- IfStatementWithoutBraces.Diagnose: an `else if` is reported at its `else`, like any else clause that is not a block. No scenario pins this case.
- The analyzers of the two unshown rules parse C# text. Here each scenario's syntax is written out as a record, and only the keyword and header positions are checked against the document text.
- Methods whose header spans several lines, or whose tokens are separated by anything but single spaces, are outside the layout model.
- The test harnesses (`CodeFixVerifier` and the newer verifier) and any batching of fixes across a document.
- ExtensionsTests.cs (`InheritsFrom`, `IsAsync`) works on compilations and semantic models that are not part of this model.
