/** The if/else-without-braces rule and its fix.  Every clause of an `if`
    statement (its body, and the body of its `else`) that is a single
    statement rather than a block is reported, anchored at its `if` or
    `else` keyword, and the fix wraps each such statement in a block.  The
    trivia between the clause's header and its statement (whitespace, line
    breaks, a block comment) stays in front of the new opening brace. */
module IfStatementWithoutBraces {
  import opened Wrappers
  import opened Diagnostics

  /** What stands between a clause header and its statement. */
  datatype Trivia = Whitespace(text: string) | EndOfLine | Comment(text: string)

  /** A statement: one that holds no clause, such as a call, or an `if`
      statement with the position of its keyword. */
  datatype Stmt =
    | Simple(text: string)
    | If(ifKeyword: Location, condition: string, body: Clause, elseClause: Option<ElseClause>)

  /** The body of an `if` or an `else`: a block, or a single statement.
      `leading` is the trivia after the header, in front of the block's
      opening brace or in front of the statement. */
  datatype Clause =
    | Block(leading: seq<Trivia>, stmts: seq<Stmt>)
    | Single(leading: seq<Trivia>, stmt: Stmt)

  datatype ElseClause = Else(elseKeyword: Location, body: Clause)

  // ---- the analysis ----

  /** The diagnostics for a statement, in source order: its `if` clause,
      whatever is inside it, its `else` clause, whatever is inside that.
      There is exactly one for each clause that is not a block: the rule's
      diagnostic at that clause's keyword, without message arguments. */
  function Diagnose(rule: Descriptor, s: Stmt): (r: seq<Diagnostic>)
    ensures |r| == |SingleKeywords(s)|
    ensures forall i :: 0 <= i < |r| ==> r[i] == Create(rule, SingleKeywords(s)[i], [])
    decreases s
  {
    match s
    case Simple(_) => []
    case If(k, _, body, els) =>
      DiagnoseClause(rule, k, body) +
      (if els.Some? then DiagnoseClause(rule, els.value.elseKeyword, els.value.body) else [])
  }

  /** A clause that is not a block is reported at its keyword. */
  function DiagnoseClause(rule: Descriptor, keyword: Location, c: Clause): (r: seq<Diagnostic>)
    ensures |r| == |ClauseSingleKeywords(keyword, c)|
    ensures forall i :: 0 <= i < |r| ==> r[i] == Create(rule, ClauseSingleKeywords(keyword, c)[i], [])
    decreases c
  {
    match c
    case Block(_, stmts) => DiagnoseAll(rule, stmts)
    case Single(_, stmt) => [Create(rule, keyword, [])] + Diagnose(rule, stmt)
  }

  function DiagnoseAll(rule: Descriptor, ss: seq<Stmt>): (r: seq<Diagnostic>)
    ensures |r| == |AllSingleKeywords(ss)|
    ensures forall i :: 0 <= i < |r| ==> r[i] == Create(rule, AllSingleKeywords(ss)[i], [])
    decreases ss
  {
    if ss == [] then [] else Diagnose(rule, ss[0]) + DiagnoseAll(rule, ss[1..])
  }

  /** The keyword of every clause that is a single statement rather than a
      block, in source order. */
  function SingleKeywords(s: Stmt): seq<Location>
    decreases s
  {
    match s
    case Simple(_) => []
    case If(k, _, body, els) =>
      ClauseSingleKeywords(k, body) +
      (if els.Some? then ClauseSingleKeywords(els.value.elseKeyword, els.value.body) else [])
  }

  function ClauseSingleKeywords(keyword: Location, c: Clause): seq<Location>
    decreases c
  {
    match c
    case Block(_, stmts) => AllSingleKeywords(stmts)
    case Single(_, stmt) => [keyword] + SingleKeywords(stmt)
  }

  function AllSingleKeywords(ss: seq<Stmt>): seq<Location>
    decreases ss
  {
    if ss == [] then [] else SingleKeywords(ss[0]) + AllSingleKeywords(ss[1..])
  }

  /** Every `if` and `else` keyword, in source order. */
  function Keywords(s: Stmt): seq<Location>
  {
    match s
    case Simple(_) => []
    case If(k, _, body, els) =>
      [k] + ClauseKeywords(body) +
      (if els.Some? then [els.value.elseKeyword] + ClauseKeywords(els.value.body) else [])
  }

  function ClauseKeywords(c: Clause): seq<Location>
  {
    match c
    case Block(_, stmts) => AllKeywords(stmts)
    case Single(_, stmt) => Keywords(stmt)
  }

  function AllKeywords(ss: seq<Stmt>): seq<Location>
  {
    if ss == [] then [] else Keywords(ss[0]) + AllKeywords(ss[1..])
  }

  /** Every clause, at every depth, is a block. */
  predicate Braced(s: Stmt)
  {
    match s
    case Simple(_) => true
    case If(_, _, body, els) =>
      BracedClause(body) && (els.Some? ==> BracedClause(els.value.body))
  }

  predicate BracedClause(c: Clause)
  {
    match c
    case Block(_, stmts) => BracedAll(stmts)
    case Single(_, _) => false
  }

  predicate BracedAll(ss: seq<Stmt>)
  {
    ss == [] || (Braced(ss[0]) && BracedAll(ss[1..]))
  }

  // ---- the fix ----

  /** The statements a clause holds: those of a block, or its single one. */
  function Contents(c: Clause): seq<Stmt>
  {
    match c
    case Block(_, stmts) => stmts
    case Single(_, stmt) => [stmt]
  }

  /** The fix keeps a simple statement as it is.  An `if` keeps its
      keyword, its condition and whether it has an `else`, and the `else`
      its keyword; each clause becomes a block with the same leading
      trivia (what the block holds is `FixOnlyAddsBraces`). */
  function Fix(s: Stmt): (r: Stmt)
    ensures s.Simple? ==> r == s
    ensures s.If? ==> r.If? && r.ifKeyword == s.ifKeyword && r.condition == s.condition
    ensures s.If? ==> r.body.Block? && r.body.leading == s.body.leading
    ensures s.If? ==> (r.elseClause.Some? <==> s.elseClause.Some?)
    ensures s.If? && s.elseClause.Some? ==>
              r.elseClause.value.elseKeyword == s.elseClause.value.elseKeyword &&
              r.elseClause.value.body.Block? &&
              r.elseClause.value.body.leading == s.elseClause.value.body.leading
  {
    match s
    case Simple(_) => s
    case If(k, cond, body, els) =>
      If(k, cond, FixClause(body),
         if els.Some? then Some(Else(els.value.elseKeyword, FixClause(els.value.body))) else None)
  }

  /** Every clause becomes a block with the same leading trivia: a single
      statement is wrapped, fixed in turn; a block keeps its statements,
      each fixed in turn. */
  function FixClause(c: Clause): (r: Clause)
    ensures r.Block? && r.leading == c.leading
    ensures c.Single? ==> r.stmts == [Fix(c.stmt)]
    ensures c.Block? ==> r.stmts == FixAll(c.stmts)
  {
    match c
    case Block(t, stmts) => Block(t, FixAll(stmts))
    case Single(t, stmt) => Block(t, [Fix(stmt)])
  }

  /** Each statement of a list is fixed in its place. */
  function FixAll(ss: seq<Stmt>): (r: seq<Stmt>)
    ensures |r| == |ss|
    ensures forall i :: 0 <= i < |ss| ==> r[i] == Fix(ss[i])
  {
    if ss == [] then [] else [Fix(ss[0])] + FixAll(ss[1..])
  }

  // ---- what the fix keeps ----

  /** The simple statements, in order. */
  function Statements(s: Stmt): seq<string>
  {
    match s
    case Simple(text) => [text]
    case If(_, _, body, els) =>
      ClauseStatements(body) + (if els.Some? then ClauseStatements(els.value.body) else [])
  }

  function ClauseStatements(c: Clause): seq<string>
  {
    match c
    case Block(_, stmts) => AllStatements(stmts)
    case Single(_, stmt) => Statements(stmt)
  }

  function AllStatements(ss: seq<Stmt>): seq<string>
  {
    if ss == [] then [] else Statements(ss[0]) + AllStatements(ss[1..])
  }

  /** The leading trivia of every clause, in order. */
  function ClauseTrivia(s: Stmt): seq<seq<Trivia>>
  {
    match s
    case Simple(_) => []
    case If(_, _, body, els) =>
      TriviaOf(body) + (if els.Some? then TriviaOf(els.value.body) else [])
  }

  function TriviaOf(c: Clause): seq<seq<Trivia>>
  {
    match c
    case Block(t, stmts) => [t] + AllTrivia(stmts)
    case Single(t, stmt) => [t] + ClauseTrivia(stmt)
  }

  function AllTrivia(ss: seq<Stmt>): seq<seq<Trivia>>
  {
    if ss == [] then [] else ClauseTrivia(ss[0]) + AllTrivia(ss[1..])
  }

  // ---- layout ----

  /** The trivia that is not layout: the comments, in order. */
  function Comments(trivia: seq<Trivia>): (r: seq<Trivia>)
    ensures forall i :: 0 <= i < |r| ==> r[i].Comment?
    ensures forall t :: t in trivia && t.Comment? ==> t in r
  {
    if trivia == [] then []
    else (if trivia[0].Comment? then [trivia[0]] else []) + Comments(trivia[1..])
  }

  /** Comments are taken piece by piece: those of a concatenation are
      those of each part, in order, so none is moved or repeated. */
  lemma {:induction false} CommentsConcat(a: seq<Trivia>, b: seq<Trivia>)
    ensures Comments(a + b) == Comments(a) + Comments(b)
    decreases a
  {
    if a != [] {
      assert (a + b)[0] == a[0] && (a + b)[1..] == a[1..] + b;
      CommentsConcat(a[1..], b);
    } else {
      assert a + b == b;
    }
  }

  /** The statement with the whitespace and line breaks of every clause's
      leading trivia dropped: what is left when the layout, which the
      formatter decides, is set aside. */
  function WithoutLayout(s: Stmt): Stmt
  {
    match s
    case Simple(_) => s
    case If(k, cond, body, els) =>
      If(k, cond, ClauseWithoutLayout(body),
         if els.Some? then Some(Else(els.value.elseKeyword, ClauseWithoutLayout(els.value.body))) else None)
  }

  function ClauseWithoutLayout(c: Clause): Clause
  {
    match c
    case Block(t, stmts) => Block(Comments(t), AllWithoutLayout(stmts))
    case Single(t, stmt) => Single(Comments(t), WithoutLayout(stmt))
  }

  function AllWithoutLayout(ss: seq<Stmt>): (r: seq<Stmt>)
    ensures |r| == |ss|
  {
    if ss == [] then [] else [WithoutLayout(ss[0])] + AllWithoutLayout(ss[1..])
  }

  // ---- what the analysis promises ----

  /** A statement yields no diagnostic exactly when every clause in it is
      a block. */
  lemma {:induction false} NoDiagnosticIffBraced(rule: Descriptor, s: Stmt)
    ensures Diagnose(rule, s) == [] <==> Braced(s)
    decreases s
  {
    match s
    case Simple(_) =>
    case If(k, _, body, els) =>
      NoDiagnosticIffBracedClause(rule, k, body);
      if els.Some? {
        NoDiagnosticIffBracedClause(rule, els.value.elseKeyword, els.value.body);
      }
  }

  lemma {:induction false} NoDiagnosticIffBracedClause(rule: Descriptor, keyword: Location, c: Clause)
    ensures DiagnoseClause(rule, keyword, c) == [] <==> BracedClause(c)
    decreases c
  {
    match c
    case Block(_, stmts) => NoDiagnosticIffBracedAll(rule, stmts);
    case Single(_, _) =>
  }

  lemma {:induction false} NoDiagnosticIffBracedAll(rule: Descriptor, ss: seq<Stmt>)
    ensures DiagnoseAll(rule, ss) == [] <==> BracedAll(ss)
    decreases ss
  {
    if ss != [] {
      NoDiagnosticIffBraced(rule, ss[0]);
      NoDiagnosticIffBracedAll(rule, ss[1..]);
    }
  }

  /** The diagnostics stand exactly at the keywords of the clauses that
      are not blocks, one each, in source order. */
  lemma DiagnosticsAtSingleKeywords(rule: Descriptor, s: Stmt)
    ensures Locations(Diagnose(rule, s)) == SingleKeywords(s)
  {
    var ds := Diagnose(rule, s);
    assert forall i :: 0 <= i < |ds| ==> Locations(ds)[i] == SingleKeywords(s)[i];
  }

  /** The locations of the diagnostics are the statement's keywords with
      some left out, in the same order. */
  lemma {:induction false} DiagnosticsAtKeywords(rule: Descriptor, s: Stmt)
    ensures Subsequence(Locations(Diagnose(rule, s)), Keywords(s))
    decreases s
  {
    match s
    case Simple(_) =>
    case If(k, _, body, els) =>
      DiagnosticsAtKeywordsClause(rule, k, body);
      var d1 := DiagnoseClause(rule, k, body);
      var d2 := if els.Some? then DiagnoseClause(rule, els.value.elseKeyword, els.value.body) else [];
      var k2 := if els.Some? then [els.value.elseKeyword] + ClauseKeywords(els.value.body) else [];
      LocationsConcat(d1, d2);
      assert Subsequence(Locations(d2), k2) by {
        if els.Some? {
          DiagnosticsAtKeywordsClause(rule, els.value.elseKeyword, els.value.body);
        }
      }
      SubsequenceConcat(Locations(d1), [k] + ClauseKeywords(body), Locations(d2), k2);
  }

  /** A clause contributes the diagnostic at its own keyword when it is not
      a block, then those of what it holds. */
  lemma {:induction false} DiagnosticsAtKeywordsClause(rule: Descriptor, keyword: Location, c: Clause)
    ensures Subsequence(Locations(DiagnoseClause(rule, keyword, c)), [keyword] + ClauseKeywords(c))
    decreases c
  {
    match c
    case Block(_, stmts) =>
      DiagnosticsAtKeywordsAll(rule, stmts);
      SubsequenceOfLonger(Locations(DiagnoseAll(rule, stmts)), [keyword], AllKeywords(stmts));
    case Single(_, stmt) =>
      DiagnosticsAtKeywords(rule, stmt);
      var own := [Create(rule, keyword, [])];
      LocationsConcat(own, Diagnose(rule, stmt));
      assert Locations(own) == [keyword];
      SubsequenceOfItself([keyword]);
      SubsequenceConcat([keyword], [keyword], Locations(Diagnose(rule, stmt)), Keywords(stmt));
  }

  lemma {:induction false} DiagnosticsAtKeywordsAll(rule: Descriptor, ss: seq<Stmt>)
    ensures Subsequence(Locations(DiagnoseAll(rule, ss)), AllKeywords(ss))
    decreases ss
  {
    if ss != [] {
      DiagnosticsAtKeywords(rule, ss[0]);
      DiagnosticsAtKeywordsAll(rule, ss[1..]);
      LocationsConcat(Diagnose(rule, ss[0]), DiagnoseAll(rule, ss[1..]));
      SubsequenceConcat(Locations(Diagnose(rule, ss[0])), Keywords(ss[0]),
                        Locations(DiagnoseAll(rule, ss[1..])), AllKeywords(ss[1..]));
    }
  }

  /** When the keywords stand in source order, as they do in any parsed
      document, the diagnostics are reported in source order. */
  lemma DiagnosticsInSourceOrder(rule: Descriptor, s: Stmt)
    requires Sorted(Keywords(s))
    ensures Sorted(Locations(Diagnose(rule, s)))
  {
    DiagnosticsAtKeywords(rule, s);
    SubsequenceSorted(Locations(Diagnose(rule, s)), Keywords(s));
  }

  // ---- what the fix promises ----

  /** After the fix every clause is a block, so nothing is reported. */
  lemma {:induction false} FixBraces(s: Stmt)
    ensures Braced(Fix(s))
    decreases s
  {
    match s
    case Simple(_) =>
    case If(_, _, body, els) =>
      FixBracesClause(body);
      if els.Some? {
        FixBracesClause(els.value.body);
      }
  }

  lemma {:induction false} FixBracesClause(c: Clause)
    ensures BracedClause(FixClause(c))
    decreases c
  {
    match c
    case Block(_, stmts) => FixBracesAll(stmts);
    case Single(_, stmt) =>
      FixBraces(stmt);
      OneStatementBlock(Fix(stmt));
  }

  lemma {:induction false} FixBracesAll(ss: seq<Stmt>)
    ensures BracedAll(FixAll(ss))
    decreases ss
  {
    if ss != [] {
      FixBraces(ss[0]);
      FixBracesAll(ss[1..]);
      assert FixAll(ss)[0] == Fix(ss[0]) && FixAll(ss)[1..] == FixAll(ss[1..]);
    }
  }

  lemma FixResolvesDiagnostics(rule: Descriptor, s: Stmt)
    ensures Diagnose(rule, Fix(s)) == []
  {
    FixBraces(s);
    NoDiagnosticIffBraced(rule, Fix(s));
  }

  /** A statement whose clauses are all blocks is left as it is. */
  lemma {:induction false} BracedUnchanged(s: Stmt)
    requires Braced(s)
    ensures Fix(s) == s
    decreases s
  {
    match s
    case Simple(_) =>
    case If(_, _, body, els) =>
      BracedUnchangedClause(body);
      if els.Some? {
        BracedUnchangedClause(els.value.body);
      }
  }

  lemma {:induction false} BracedUnchangedClause(c: Clause)
    requires BracedClause(c)
    ensures FixClause(c) == c
    decreases c
  {
    BracedUnchangedAll(c.stmts);
  }

  lemma {:induction false} BracedUnchangedAll(ss: seq<Stmt>)
    requires BracedAll(ss)
    ensures FixAll(ss) == ss
    decreases ss
  {
    if ss != [] {
      BracedUnchanged(ss[0]);
      BracedUnchangedAll(ss[1..]);
      assert ss == [ss[0]] + ss[1..];
    }
  }

  /** A clause that yields no diagnostic is left as it is by the fix. */
  lemma UnreportedClauseUnchanged(rule: Descriptor, keyword: Location, c: Clause)
    requires DiagnoseClause(rule, keyword, c) == []
    ensures FixClause(c) == c
  {
    NoDiagnosticIffBracedClause(rule, keyword, c);
    BracedUnchangedClause(c);
  }

  /** One pass of the fix is enough; a second changes nothing. */
  lemma FixIdempotent(s: Stmt)
    ensures Fix(Fix(s)) == Fix(s)
  {
    FixBraces(s);
    BracedUnchanged(Fix(s));
  }

  /** The fix only adds braces: each clause of an `if` becomes a block
      holding exactly the statements the clause held, in order, each fixed
      in turn, so none moves from one clause to another. */
  lemma FixOnlyAddsBraces(s: Stmt)
    requires s.If?
    ensures Fix(s).body.stmts == FixAll(Contents(s.body))
    ensures s.elseClause.Some? ==> Fix(s).elseClause.value.body.stmts == FixAll(Contents(s.elseClause.value.body))
  {
    FixAllSingle(s.body);
    if s.elseClause.Some? {
      FixAllSingle(s.elseClause.value.body);
    }
  }

  lemma FixAllSingle(c: Clause)
    ensures FixClause(c).stmts == FixAll(Contents(c))
  {
    if c.Single? {
      assert FixAll([c.stmt]) == [Fix(c.stmt)];
    }
  }

  /** The fix keeps every `if` and `else` keyword, in order. */
  lemma {:induction false} FixKeepsKeywords(s: Stmt)
    ensures Keywords(Fix(s)) == Keywords(s)
    decreases s
  {
    match s
    case Simple(_) =>
    case If(_, _, body, els) =>
      FixKeepsKeywordsClause(body);
      if els.Some? {
        FixKeepsKeywordsClause(els.value.body);
      }
  }

  lemma {:induction false} FixKeepsKeywordsClause(c: Clause)
    ensures ClauseKeywords(FixClause(c)) == ClauseKeywords(c)
    decreases c
  {
    match c
    case Block(_, stmts) => FixKeepsKeywordsAll(stmts);
    case Single(_, stmt) =>
      FixKeepsKeywords(stmt);
      OneStatementBlock(Fix(stmt));
  }

  lemma {:induction false} FixKeepsKeywordsAll(ss: seq<Stmt>)
    ensures AllKeywords(FixAll(ss)) == AllKeywords(ss)
    decreases ss
  {
    if ss != [] {
      FixKeepsKeywords(ss[0]);
      FixKeepsKeywordsAll(ss[1..]);
      assert FixAll(ss)[0] == Fix(ss[0]) && FixAll(ss)[1..] == FixAll(ss[1..]);
    }
  }

  /** The fix keeps every simple statement, in order. */
  lemma {:induction false} FixKeepsStatements(s: Stmt)
    ensures Statements(Fix(s)) == Statements(s)
    decreases s
  {
    match s
    case Simple(_) =>
    case If(_, _, body, els) =>
      FixKeepsStatementsClause(body);
      if els.Some? {
        FixKeepsStatementsClause(els.value.body);
      }
  }

  lemma {:induction false} FixKeepsStatementsClause(c: Clause)
    ensures ClauseStatements(FixClause(c)) == ClauseStatements(c)
    decreases c
  {
    match c
    case Block(_, stmts) => FixKeepsStatementsAll(stmts);
    case Single(_, stmt) =>
      FixKeepsStatements(stmt);
      OneStatementBlock(Fix(stmt));
  }

  lemma {:induction false} FixKeepsStatementsAll(ss: seq<Stmt>)
    ensures AllStatements(FixAll(ss)) == AllStatements(ss)
    decreases ss
  {
    if ss != [] {
      FixKeepsStatements(ss[0]);
      FixKeepsStatementsAll(ss[1..]);
      assert FixAll(ss)[0] == Fix(ss[0]) && FixAll(ss)[1..] == FixAll(ss[1..]);
    }
  }

  /** The fix keeps the leading trivia of every clause, in order: what
      stood between a header and its statement now stands between the
      header and the opening brace. */
  lemma {:induction false} FixKeepsTrivia(s: Stmt)
    ensures ClauseTrivia(Fix(s)) == ClauseTrivia(s)
    decreases s
  {
    match s
    case Simple(_) =>
    case If(_, _, body, els) =>
      FixKeepsTriviaClause(body);
      if els.Some? {
        FixKeepsTriviaClause(els.value.body);
      }
  }

  lemma {:induction false} FixKeepsTriviaClause(c: Clause)
    ensures TriviaOf(FixClause(c)) == TriviaOf(c)
    ensures FixClause(c).leading == c.leading
    decreases c
  {
    match c
    case Block(_, stmts) => FixKeepsTriviaAll(stmts);
    case Single(_, stmt) =>
      FixKeepsTrivia(stmt);
      OneStatementBlock(Fix(stmt));
  }

  lemma {:induction false} FixKeepsTriviaAll(ss: seq<Stmt>)
    ensures AllTrivia(FixAll(ss)) == AllTrivia(ss)
    decreases ss
  {
    if ss != [] {
      FixKeepsTrivia(ss[0]);
      FixKeepsTriviaAll(ss[1..]);
      assert FixAll(ss)[0] == Fix(ss[0]) && FixAll(ss)[1..] == FixAll(ss[1..]);
    }
  }

  /** A block holding one statement has that statement's keywords,
      statements and trivia. */
  lemma OneStatementBlock(s: Stmt)
    ensures AllKeywords([s]) == Keywords(s)
    ensures AllStatements([s]) == Statements(s)
    ensures AllTrivia([s]) == ClauseTrivia(s)
    ensures BracedAll([s]) == Braced(s)
  {
    assert [s][1..] == [];
  }

  // ---- layout does not matter ----

  /** The analysis does not look at layout or comments. */
  lemma {:induction false} DiagnoseIgnoresLayout(rule: Descriptor, s: Stmt)
    ensures Diagnose(rule, WithoutLayout(s)) == Diagnose(rule, s)
    decreases s
  {
    match s
    case Simple(_) =>
    case If(k, _, body, els) =>
      DiagnoseIgnoresLayoutClause(rule, k, body);
      if els.Some? {
        DiagnoseIgnoresLayoutClause(rule, els.value.elseKeyword, els.value.body);
      }
  }

  lemma {:induction false} DiagnoseIgnoresLayoutClause(rule: Descriptor, keyword: Location, c: Clause)
    ensures DiagnoseClause(rule, keyword, ClauseWithoutLayout(c)) == DiagnoseClause(rule, keyword, c)
    decreases c
  {
    match c
    case Block(_, stmts) => DiagnoseIgnoresLayoutAll(rule, stmts);
    case Single(_, stmt) => DiagnoseIgnoresLayout(rule, stmt);
  }

  lemma {:induction false} DiagnoseIgnoresLayoutAll(rule: Descriptor, ss: seq<Stmt>)
    ensures DiagnoseAll(rule, AllWithoutLayout(ss)) == DiagnoseAll(rule, ss)
    decreases ss
  {
    if ss != [] {
      DiagnoseIgnoresLayout(rule, ss[0]);
      DiagnoseIgnoresLayoutAll(rule, ss[1..]);
      assert AllWithoutLayout(ss)[0] == WithoutLayout(ss[0]) && AllWithoutLayout(ss)[1..] == AllWithoutLayout(ss[1..]);
    }
  }

  /** Setting the layout aside before or after the fix gives the same
      statement: two statements that differ only in layout are fixed into
      statements that differ only in layout. */
  lemma {:induction false} FixIgnoresLayout(s: Stmt)
    ensures WithoutLayout(Fix(s)) == Fix(WithoutLayout(s))
    decreases s
  {
    match s
    case Simple(_) =>
    case If(_, _, body, els) =>
      FixIgnoresLayoutClause(body);
      if els.Some? {
        FixIgnoresLayoutClause(els.value.body);
      }
  }

  lemma {:induction false} FixIgnoresLayoutClause(c: Clause)
    ensures ClauseWithoutLayout(FixClause(c)) == FixClause(ClauseWithoutLayout(c))
    decreases c
  {
    match c
    case Block(_, stmts) => FixIgnoresLayoutAll(stmts);
    case Single(_, stmt) =>
      FixIgnoresLayout(stmt);
      assert AllWithoutLayout([Fix(stmt)]) == [WithoutLayout(Fix(stmt))] by {
        assert [Fix(stmt)][1..] == [];
      }
  }

  lemma {:induction false} FixIgnoresLayoutAll(ss: seq<Stmt>)
    ensures AllWithoutLayout(FixAll(ss)) == FixAll(AllWithoutLayout(ss))
    decreases ss
  {
    if ss != [] {
      FixIgnoresLayout(ss[0]);
      FixIgnoresLayoutAll(ss[1..]);
      assert FixAll(ss)[0] == Fix(ss[0]) && FixAll(ss)[1..] == FixAll(ss[1..]);
      assert AllWithoutLayout(ss)[0] == WithoutLayout(ss[0]) && AllWithoutLayout(ss)[1..] == AllWithoutLayout(ss[1..]);
    }
  }
}
