/** The slice of the C# syntax tree the rules look at: node kinds, method
    declarations with their attributes and modifiers, and the single-line
    layout of a method header from which identifier columns follow. */
module Syntax {
  import opened Diagnostics

  /** The node kinds an analyzer can register for. */
  datatype SyntaxKind = MethodDeclaration | IfStatement | ElseClause | ClassDeclaration | OtherKind

  /** A method declaration.  `attributes` are the attribute names in source
      order; `modifiers` the modifier keywords in source order.  The header
      `modifiers returnType identifier parameters` sits on line `line`,
      indented by `indent` spaces, its tokens separated by single spaces and
      the parameter list written directly after the identifier. */
  datatype MethodDecl = MethodDecl(
    attributes: seq<string>,
    modifiers: seq<string>,
    returnType: string,
    identifier: string,
    parameters: string,
    line: nat,
    indent: nat)

  /** A node handed to an analyzer: a method declaration, or a node of some
      other kind whose content no rule here inspects. */
  datatype Node = MethodNode(decl: MethodDecl) | OtherNode(other: NonMethodKind)
  {
    function Kind(): (k: SyntaxKind)
      ensures k == MethodDeclaration <==> MethodNode?
    {
      if MethodNode? then MethodDeclaration else other
    }
  }

  type NonMethodKind = k: SyntaxKind | k != MethodDeclaration witness OtherKind

  /** The method carries a test attribute: some attribute name that the
      host's test-framework query accepts. */
  predicate HasTestAttribute(m: MethodDecl, isTestAttribute: string -> bool)
  {
    exists i :: 0 <= i < |m.attributes| && isTestAttribute(m.attributes[i])
  }

  /** What the scenarios take of the host's test-attribute query: Test,
      TestMethod and Fact qualify, as the reported scenarios show.  That
      Ignore does not qualify is assumed: the scenarios only use it next to
      [Test] on a public method, which is clean either way. */
  predicate ScenarioTestAttributes(isTestAttribute: string -> bool)
  {
    isTestAttribute("Test") && isTestAttribute("TestMethod") && isTestAttribute("Fact") && !isTestAttribute("Ignore")
  }

  // ---- single-line layout ----

  function Spaces(n: nat): (r: string)
    ensures |r| == n
    ensures forall i :: 0 <= i < n ==> r[i] == ' '
  {
    if n == 0 then "" else " " + Spaces(n - 1)
  }

  /** The tokens written one after another, separated by single spaces. */
  function Join(tokens: seq<string>): string
  {
    if |tokens| == 0 then ""
    else if |tokens| == 1 then tokens[0]
    else tokens[0] + " " + Join(tokens[1..])
  }

  /** Characters before token `k` in `Join(tokens)`: each earlier token and
      the space after it. */
  function Offset(tokens: seq<string>, k: nat): nat
    requires k <= |tokens|
  {
    if k == 0 then 0 else |tokens[0]| + 1 + Offset(tokens[1..], k - 1)
  }

  /** The one-based column of token `k` on a line indented by `indent`. */
  function TokenColumn(indent: nat, tokens: seq<string>, k: nat): nat
    requires k <= |tokens|
  {
    indent + Offset(tokens, k) + 1
  }

  /** Token `k` is found in the joined text at its offset. */
  lemma {:induction false} TokenAtOffset(tokens: seq<string>, k: nat)
    requires k < |tokens|
    ensures Offset(tokens, k) + |tokens[k]| <= |Join(tokens)|
    ensures Join(tokens)[Offset(tokens, k)..Offset(tokens, k) + |tokens[k]|] == tokens[k]
  {
    if k == 0 {
      if |tokens| > 1 {
        assert Join(tokens) == tokens[0] + (" " + Join(tokens[1..]));
      }
    } else {
      TokenAtOffset(tokens[1..], k - 1);
      var pre := tokens[0] + " ";
      assert Join(tokens) == pre + Join(tokens[1..]);
      assert tokens[1..][k - 1] == tokens[k];
    }
  }

  /** Replacing token `k` changes the joined text only between its offset
      and its end: everything before and after is kept. */
  lemma {:induction false} ReplaceTokenText(tokens: seq<string>, k: nat, t: string)
    requires k < |tokens|
    ensures Offset(tokens, k) + |tokens[k]| <= |Join(tokens)|
    ensures Join(tokens[k := t])
         == Join(tokens)[..Offset(tokens, k)] + t + Join(tokens)[Offset(tokens, k) + |tokens[k]|..]
  {
    TokenAtOffset(tokens, k);
    if k == 0 {
      ReplaceFirstToken(tokens, t);
    } else {
      ReplaceTokenText(tokens[1..], k - 1, t);
      ReplaceLaterToken(tokens, k, t);
    }
  }

  /** Replacing a later token is replacing it in the tokens after the
      first, behind the first token and its space. */
  lemma ReplaceLaterToken(tokens: seq<string>, k: nat, t: string)
    requires 0 < k < |tokens|
    requires Offset(tokens[1..], k - 1) + |tokens[k]| <= |Join(tokens[1..])|
    requires Join(tokens[1..][k - 1 := t])
          == Join(tokens[1..])[..Offset(tokens[1..], k - 1)] + t + Join(tokens[1..])[Offset(tokens[1..], k - 1) + |tokens[k]|..]
    ensures Join(tokens[k := t])
         == Join(tokens)[..Offset(tokens, k)] + t + Join(tokens)[Offset(tokens, k) + |tokens[k]|..]
  {
    var rest := tokens[1..];
    var pre := tokens[0] + " ";
    assert tokens[k := t][0] == tokens[0];
    assert tokens[k := t][1..] == rest[k - 1 := t];
    assert Join(tokens[k := t]) == pre + Join(rest[k - 1 := t]);
    assert Join(tokens) == pre + Join(rest) + "";
    SpliceInContext(pre, Join(rest), "", Offset(rest, k - 1), |tokens[k]|, t);
  }

  /** Replacing the first token keeps everything after it. */
  lemma ReplaceFirstToken(tokens: seq<string>, t: string)
    requires 0 < |tokens|
    ensures Join(tokens[0 := t]) == t + Join(tokens)[|tokens[0]|..]
  {
    var j := Join(tokens);
    if |tokens| > 1 {
      assert tokens[0 := t][1..] == tokens[1..];
      assert j == tokens[0] + (" " + Join(tokens[1..]));
      assert j[|tokens[0]|..] == " " + Join(tokens[1..]);
    } else {
      assert j == tokens[0];
    }
  }

  /** Splicing `t` into the middle part of `a + j + b` at offset `o` of `j`
      is splicing it into the whole text at `|a| + o`. */
  lemma SpliceInContext(a: string, j: string, b: string, o: nat, n: nat, t: string)
    requires o + n <= |j|
    ensures a + (j[..o] + t + j[o + n..]) + b == (a + j + b)[..|a| + o] + t + (a + j + b)[|a| + o + n..]
  {
    var whole := a + j + b;
    assert whole[..|a| + o] == a + j[..o];
    assert whole[|a| + o + n..] == j[o + n..] + b;
  }

  // ---- method headers ----

  /** Modifiers, return type and identifier: the header tokens before the
      parameter list. */
  function HeaderTokens(m: MethodDecl): seq<string>
  {
    m.modifiers + [m.returnType, m.identifier]
  }

  /** The text of the header line. */
  function HeaderText(m: MethodDecl): string
  {
    Spaces(m.indent) + Join(HeaderTokens(m)) + m.parameters
  }

  /** Where the method identifier token starts. */
  function IdentifierLocation(m: MethodDecl): Location
  {
    Location(m.line, TokenColumn(m.indent, HeaderTokens(m), |m.modifiers| + 1))
  }

  /** The offset of a token of `b` in `a + b` is the width of `a` plus its
      offset within `b`. */
  lemma {:induction false} OffsetAppend(a: seq<string>, b: seq<string>, k: nat)
    requires k <= |b|
    ensures Offset(a + b, |a| + k) == Offset(a, |a|) + Offset(b, k)
  {
    if a == [] {
      assert a + b == b;
    } else {
      assert (a + b)[1..] == a[1..] + b;
      OffsetAppend(a[1..], b, k);
    }
  }

  /** The identifier column as the layout arithmetic gives it: the
      indentation, every modifier followed by one space, the return type
      followed by one space, and one because columns count from one. */
  lemma IdentifierColumn(m: MethodDecl)
    ensures IdentifierLocation(m).column == m.indent + Offset(m.modifiers, |m.modifiers|) + |m.returnType| + 2
  {
    OffsetAppend(m.modifiers, [m.returnType, m.identifier], 1);
  }

  /** Reading the header line from the identifier's column (one-based) on
      yields exactly the identifier: the column formula locates the token. */
  lemma IdentifierAtLocation(m: MethodDecl)
    ensures IdentifierLocation(m).column - 1 + |m.identifier| <= |HeaderText(m)|
    ensures HeaderText(m)[IdentifierLocation(m).column - 1..IdentifierLocation(m).column - 1 + |m.identifier|]
         == m.identifier
  {
    var toks := HeaderTokens(m);
    var k := |m.modifiers| + 1;
    TokenAtOffset(toks, k);
    var c := IdentifierLocation(m).column - 1;
    assert c == m.indent + Offset(toks, k);
    assert HeaderText(m) == Spaces(m.indent) + (Join(toks) + m.parameters);
    assert HeaderText(m)[c..c + |m.identifier|] == Join(toks)[Offset(toks, k)..Offset(toks, k) + |m.identifier|];
  }

  /** Rewriting header token `k` to `t` rewrites exactly that token's
      characters of the header line. */
  lemma HeaderTextAfterTokenUpdate(m: MethodDecl, m': MethodDecl, k: nat, t: string)
    requires k < |HeaderTokens(m)|
    requires HeaderTokens(m') == HeaderTokens(m)[k := t]
    requires m'.indent == m.indent && m'.parameters == m.parameters
    ensures var p := m.indent + Offset(HeaderTokens(m), k);
            p + |HeaderTokens(m)[k]| <= |HeaderText(m)| &&
            HeaderText(m') == HeaderText(m)[..p] + t + HeaderText(m)[p + |HeaderTokens(m)[k]|..]
  {
    var toks := HeaderTokens(m);
    ReplaceTokenText(toks, k, t);
    SpliceInContext(Spaces(m.indent), Join(toks), m.parameters, Offset(toks, k), |toks[k]|, t);
  }
}
