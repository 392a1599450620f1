/** Diagnostic records as analyzers report them: a rule identity, a
    severity, an anchor location and the arguments of the rule's message
    format. */
module Diagnostics {

  /** The four severities of a Roslyn diagnostic. */
  datatype Severity = Hidden | Info | Warning | Error

  /** A one-based line and column in the analysed document. */
  datatype Location = Location(line: nat, column: nat)

  /** The data a rule declares once: its id, its default severity and
      whether it is enabled by default.  Title, category and message
      format are localised resource strings and are not modelled. */
  datatype Descriptor = Descriptor(id: string, severity: Severity, enabledByDefault: bool)

  /** One reported finding. */
  datatype Diagnostic = Diagnostic(id: string, severity: Severity, location: Location, arguments: seq<string>)

  /** `Diagnostic.Create(rule, location, arguments)`. */
  function Create(rule: Descriptor, location: Location, arguments: seq<string>): (d: Diagnostic)
    ensures d.id == rule.id && d.severity == rule.severity
    ensures d.location == location && d.arguments == arguments
  {
    Diagnostic(rule.id, rule.severity, location, arguments)
  }

  /** Strict source order on locations: by line, then by column. */
  predicate Before(a: Location, b: Location)
  {
    a.line < b.line || (a.line == b.line && a.column < b.column)
  }

  /** Strictly increasing in source order. */
  predicate Sorted(locations: seq<Location>)
  {
    forall i, j :: 0 <= i < j < |locations| ==> Before(locations[i], locations[j])
  }

  function Locations(ds: seq<Diagnostic>): (r: seq<Location>)
    ensures |r| == |ds|
    ensures forall i :: 0 <= i < |ds| ==> r[i] == ds[i].location
  {
    if ds == [] then [] else [ds[0].location] + Locations(ds[1..])
  }

  lemma LocationsConcat(a: seq<Diagnostic>, b: seq<Diagnostic>)
    ensures Locations(a + b) == Locations(a) + Locations(b)
  {
    assert forall i :: 0 <= i < |a| + |b| ==> Locations(a + b)[i] == (Locations(a) + Locations(b))[i];
  }

  /** `a` is `b` with some of its elements dropped and the others kept in
      order. */
  predicate Subsequence(a: seq<Location>, b: seq<Location>)
    decreases |b|
  {
    if a == [] then true
    else if b == [] then false
    else (a[0] == b[0] && Subsequence(a[1..], b[1..])) || Subsequence(a, b[1..])
  }

  lemma {:induction false} SubsequenceOfItself(b: seq<Location>)
    ensures Subsequence(b, b)
  {
    if b != [] {
      SubsequenceOfItself(b[1..]);
    }
  }

  lemma {:induction false} SubsequenceOfLonger(a: seq<Location>, p: seq<Location>, b: seq<Location>)
    requires Subsequence(a, b)
    ensures Subsequence(a, p + b)
  {
    if p == [] {
      assert p + b == b;
    } else if a != [] {
      assert (p + b)[1..] == p[1..] + b;
      SubsequenceOfLonger(a, p[1..], b);
    }
  }

  /** Subsequences of the parts give a subsequence of the whole. */
  lemma {:induction false} SubsequenceConcat(a1: seq<Location>, b1: seq<Location>, a2: seq<Location>, b2: seq<Location>)
    requires Subsequence(a1, b1) && Subsequence(a2, b2)
    ensures Subsequence(a1 + a2, b1 + b2)
    decreases |b1|
  {
    if a1 == [] {
      assert a1 + a2 == a2;
      SubsequenceOfLonger(a2, b1, b2);
    } else {
      assert (a1 + a2)[0] == a1[0] && (a1 + a2)[1..] == a1[1..] + a2;
      assert (b1 + b2)[0] == b1[0] && (b1 + b2)[1..] == b1[1..] + b2;
      if a1[0] == b1[0] && Subsequence(a1[1..], b1[1..]) {
        SubsequenceConcat(a1[1..], b1[1..], a2, b2);
      } else {
        SubsequenceConcat(a1, b1[1..], a2, b2);
      }
    }
  }

  lemma {:induction false} SubsequenceMember(a: seq<Location>, b: seq<Location>, x: Location)
    requires Subsequence(a, b) && x in a
    ensures x in b
    decreases |b|
  {
    if a[0] == b[0] && Subsequence(a[1..], b[1..]) {
      if x != a[0] {
        SubsequenceMember(a[1..], b[1..], x);
      }
    } else {
      SubsequenceMember(a, b[1..], x);
    }
  }

  /** Dropping elements of a list in source order leaves it in source
      order. */
  lemma {:induction false} SubsequenceSorted(a: seq<Location>, b: seq<Location>)
    requires Subsequence(a, b) && Sorted(b)
    ensures Sorted(a)
    decreases |b|
  {
    if a != [] {
      assert Sorted(b[1..]) by {
        forall i, j | 0 <= i < j < |b[1..]| ensures Before(b[1..][i], b[1..][j]) {
          assert b[1..][i] == b[i + 1] && b[1..][j] == b[j + 1];
        }
      }
      if a[0] == b[0] && Subsequence(a[1..], b[1..]) {
        SubsequenceSorted(a[1..], b[1..]);
        forall j | 0 < j < |a| ensures Before(a[0], a[j]) {
          assert a[j] == a[1..][j - 1];
          SubsequenceMember(a[1..], b[1..], a[j]);
          var k :| 0 <= k < |b[1..]| && b[1..][k] == a[j];
          assert b[k + 1] == a[j];
        }
        forall i, j | 0 <= i < j < |a| ensures Before(a[i], a[j]) {
          if i > 0 {
            assert a[i] == a[1..][i - 1] && a[j] == a[1..][j - 1];
          }
        }
      } else {
        SubsequenceSorted(a, b[1..]);
      }
    }
  }
}
