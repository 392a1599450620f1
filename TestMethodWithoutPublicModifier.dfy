/** The test-method-must-be-public rule and its fix.  A method carrying a
    test attribute whose modifiers do not include `public` is reported at
    its identifier; the fix replaces all accessibility modifiers by a single
    `public`, placed where the first of them stood (or in front when there
    was none), and keeps every other modifier in order. */
module TestMethodWithoutPublicModifier {
  import opened Wrappers
  import opened Diagnostics
  import opened Syntax

  predicate IsAccessibility(modifier: string)
  {
    modifier == "public" || modifier == "private" || modifier == "protected" || modifier == "internal"
  }

  /** The accessibility modifiers, in order. */
  function Accessibility(mods: seq<string>): seq<string>
  {
    if mods == [] then []
    else (if IsAccessibility(mods[0]) then [mods[0]] else []) + Accessibility(mods[1..])
  }

  /** The modifiers that are not accessibility modifiers, in order. */
  function OtherModifiers(mods: seq<string>): seq<string>
  {
    if mods == [] then []
    else (if IsAccessibility(mods[0]) then [] else [mods[0]]) + OtherModifiers(mods[1..])
  }

  /** The index of the first accessibility modifier, or `|mods|`. */
  function FirstAccessibility(mods: seq<string>): (k: nat)
    ensures k <= |mods|
    ensures forall i :: 0 <= i < k ==> !IsAccessibility(mods[i])
    ensures k < |mods| ==> IsAccessibility(mods[k])
  {
    if mods == [] || IsAccessibility(mods[0]) then 0 else 1 + FirstAccessibility(mods[1..])
  }

  /** Where the fix puts `public`: at the first accessibility modifier, or
      in front when there is none. */
  function InsertionPoint(mods: seq<string>): (k: nat)
    ensures k <= |mods|
    ensures forall i :: 0 <= i < k ==> !IsAccessibility(mods[i])
    ensures Accessibility(mods) == [] ==> k == 0
    ensures Accessibility(mods) != [] ==> k < |mods| && IsAccessibility(mods[k])
  {
    var k := FirstAccessibility(mods);
    if k == |mods| then
      NoAccessibilityBefore(mods, k);
      assert mods[..k] == mods;
      0
    else
      FilterSplit(mods, k);
      assert mods[k..] == [mods[k]] + mods[k + 1..];
      FilterConcat([mods[k]], mods[k + 1..]);
      k
  }

  // ---- the analysis ----

  /** The analyzer on one method declaration. */
  function Analyze(rule: Descriptor, m: MethodDecl, isTestAttribute: string -> bool): (r: Option<Diagnostic>)
    ensures r.Some? <==> HasTestAttribute(m, isTestAttribute) && "public" !in m.modifiers
    ensures r.Some? ==> r.value.id == rule.id && r.value.severity == rule.severity
    ensures r.Some? ==> r.value.location == IdentifierLocation(m) && r.value.arguments == [m.identifier]
  {
    if HasTestAttribute(m, isTestAttribute) && "public" !in m.modifiers
    then Some(Create(rule, IdentifierLocation(m), [m.identifier]))
    else None
  }

  // ---- the fix ----

  /** The rewritten modifier list. */
  function FixModifiers(mods: seq<string>): (r: seq<string>)
    ensures Accessibility(r) == ["public"]
    ensures OtherModifiers(r) == OtherModifiers(mods)
    ensures var k := InsertionPoint(mods); k < |r| && r[..k] == mods[..k] && r[k] == "public"
  {
    var k := InsertionPoint(mods);
    NoAccessibilityBefore(mods, k);
    FilterSplit(mods, k);
    Rewritten(mods[..k], mods[k..]);
    mods[..k] + ["public"] + OtherModifiers(mods[k..])
  }

  /** `public` between a prefix without accessibility modifiers and the
      other modifiers of the rest. */
  lemma Rewritten(prefix: seq<string>, rest: seq<string>)
    requires Accessibility(prefix) == []
    ensures var r := prefix + ["public"] + OtherModifiers(rest);
            Accessibility(r) == ["public"] &&
            OtherModifiers(r) == OtherModifiers(prefix) + OtherModifiers(rest) &&
            |prefix| < |r| && r[..|prefix|] == prefix && r[|prefix|] == "public"
  {
    RewrittenAccessibility(prefix, rest);
    RewrittenOthers(prefix, rest);
    assert (prefix + ["public"] + OtherModifiers(rest))[..|prefix|] == prefix;
  }

  lemma RewrittenAccessibility(prefix: seq<string>, rest: seq<string>)
    requires Accessibility(prefix) == []
    ensures Accessibility(prefix + ["public"] + OtherModifiers(rest)) == ["public"]
  {
    FilterAround(prefix, "public", OtherModifiers(rest));
    OtherModifiersHaveNoAccessibility(rest);
  }

  lemma RewrittenOthers(prefix: seq<string>, rest: seq<string>)
    ensures OtherModifiers(prefix + ["public"] + OtherModifiers(rest)) == OtherModifiers(prefix) + OtherModifiers(rest)
  {
    FilterAround(prefix, "public", OtherModifiers(rest));
    OtherModifiersIdempotent(rest);
  }

  /** The filters of `a + [x] + b`. */
  lemma FilterAround(a: seq<string>, x: string, b: seq<string>)
    ensures Accessibility(a + [x] + b) == Accessibility(a) + (if IsAccessibility(x) then [x] else []) + Accessibility(b)
    ensures OtherModifiers(a + [x] + b) == OtherModifiers(a) + (if IsAccessibility(x) then [] else [x]) + OtherModifiers(b)
  {
    AccessibilityConcat(a + [x], b);
    AccessibilityConcat(a, [x]);
    OtherModifiersConcat(a + [x], b);
    OtherModifiersConcat(a, [x]);
    FilterSingle(x);
  }

  lemma FilterSingle(x: string)
    ensures Accessibility([x]) == if IsAccessibility(x) then [x] else []
    ensures OtherModifiers([x]) == if IsAccessibility(x) then [] else [x]
  {
    assert [x][1..] == [];
  }

  /** The fixed declaration: only its modifiers change, to a list whose
      one accessibility modifier is `public`, standing where the first
      accessibility modifier stood (or in front), with the other modifiers
      of the original in order. */
  function FixMethod(m: MethodDecl): (r: MethodDecl)
    ensures r.modifiers == FixModifiers(m.modifiers)
    ensures Accessibility(r.modifiers) == ["public"] && OtherModifiers(r.modifiers) == OtherModifiers(m.modifiers)
    ensures var k := InsertionPoint(m.modifiers);
      k < |r.modifiers| && r.modifiers[..k] == m.modifiers[..k] && r.modifiers[k] == "public"
    ensures r.attributes == m.attributes && r.returnType == m.returnType && r.identifier == m.identifier
    ensures r.parameters == m.parameters && r.line == m.line && r.indent == m.indent
  {
    m.(modifiers := FixModifiers(m.modifiers))
  }

  /** The fix applied to a document held as lines: the header line of `m`
      is replaced by the fixed header and every other line is kept.  When
      the line the method names does not hold its header, the fix does not
      apply. */
  function FixDocument(doc: seq<string>, m: MethodDecl): (r: Option<seq<string>>)
    ensures r.Some? <==> 1 <= m.line <= |doc| && doc[m.line - 1] == HeaderText(m)
    ensures r.Some? ==> |r.value| == |doc| && r.value[m.line - 1] == HeaderText(FixMethod(m))
    ensures r.Some? ==> forall i :: 0 <= i < |doc| && i != m.line - 1 ==> r.value[i] == doc[i]
  {
    if 1 <= m.line <= |doc| && doc[m.line - 1] == HeaderText(m)
    then Some(doc[m.line - 1 := HeaderText(FixMethod(m))])
    else None
  }

  // ---- what the fix promises ----

  /** After the fix the method is public, so the analyzer no longer reports
      it. */
  lemma FixResolvesDiagnostic(rule: Descriptor, m: MethodDecl, isTestAttribute: string -> bool)
    ensures Analyze(rule, FixMethod(m), isTestAttribute) == None
  {
    var r := FixModifiers(m.modifiers);
    AccessibilityElementsIn(r, "public");
  }

  /** With a single accessibility modifier, at index `k`, the fix replaces
      exactly that modifier by `public` and keeps every other one where it
      was. */
  lemma FixReplacesSoleAccessibility(mods: seq<string>, k: nat)
    requires k < |mods| && IsAccessibility(mods[k])
    requires forall i :: 0 <= i < |mods| && i != k ==> !IsAccessibility(mods[i])
    ensures FixModifiers(mods) == mods[k := "public"]
  {
    SoleAccessibilityIsInsertionPoint(mods, k);
    OthersAfterSoleAccessibility(mods, k);
    assert mods[k := "public"] == mods[..k] + ["public"] + mods[k + 1..];
  }

  lemma SoleAccessibilityIsInsertionPoint(mods: seq<string>, k: nat)
    requires k < |mods| && IsAccessibility(mods[k])
    requires forall i :: 0 <= i < |mods| && i != k ==> !IsAccessibility(mods[i])
    ensures InsertionPoint(mods) == k
  {
    assert mods == mods[..k] + ([mods[k]] + mods[k + 1..]);
    FilterConcat(mods[..k], [mods[k]] + mods[k + 1..]);
    FilterConcat([mods[k]], mods[k + 1..]);
  }

  lemma OthersAfterSoleAccessibility(mods: seq<string>, k: nat)
    requires k < |mods| && IsAccessibility(mods[k])
    requires forall i :: 0 <= i < |mods| && i != k ==> !IsAccessibility(mods[i])
    ensures OtherModifiers(mods[k..]) == mods[k + 1..]
  {
    assert mods[k..] == [mods[k]] + mods[k + 1..];
    FilterConcat([mods[k]], mods[k + 1..]);
    NoAccessibility(mods[k + 1..]);
    FilterSelf(mods[k + 1..]);
  }

  /** The fix is idempotent: a list it produced is left as it is. */
  lemma FixModifiersIdempotent(mods: seq<string>)
    ensures FixModifiers(FixModifiers(mods)) == FixModifiers(mods)
  {
    var r := FixModifiers(mods);
    var k := InsertionPoint(mods);
    forall i | 0 <= i < |r| && i != k
      ensures !IsAccessibility(r[i])
    {
      if IsAccessibility(r[i]) {
        OnlyOneAccessibility(r, i, k);
      }
    }
    FixReplacesSoleAccessibility(r, k);
    assert r[k := "public"] == r;
  }

  /** Accessibility modifiers in front of the others, or none at all,
      collapse to a single leading `public`, and the other modifiers follow
      it unchanged. */
  lemma FixLeadingAccessibility(acc: seq<string>, rest: seq<string>)
    requires forall i :: 0 <= i < |acc| ==> IsAccessibility(acc[i])
    requires forall i :: 0 <= i < |rest| ==> !IsAccessibility(rest[i])
    ensures FixModifiers(acc + rest) == ["public"] + rest
  {
    var mods := acc + rest;
    FilterConcat(acc, rest);
    AllAccessibility(acc);
    NoAccessibility(rest);
    FilterSelf(rest);
    if acc != [] {
      assert mods[0] == acc[0];
      assert FirstAccessibility(mods) == 0;
    }
    assert InsertionPoint(mods) == 0;
    assert mods[0..] == mods;
  }

  /** For a method with a single accessibility modifier, the fixed header
      line equals the original with only that token's characters replaced
      by `public`: indentation, the other modifiers, return type,
      identifier and parameter list are kept character for character. */
  lemma FixOnlyRewritesAccessibilityToken(m: MethodDecl, k: nat)
    requires k < |m.modifiers| && IsAccessibility(m.modifiers[k])
    requires forall i :: 0 <= i < |m.modifiers| && i != k ==> !IsAccessibility(m.modifiers[i])
    ensures var p := m.indent + Offset(HeaderTokens(m), k);
            p + |m.modifiers[k]| <= |HeaderText(m)| &&
            HeaderText(FixMethod(m)) == HeaderText(m)[..p] + "public" + HeaderText(m)[p + |m.modifiers[k]|..]
  {
    FixReplacesSoleAccessibility(m.modifiers, k);
    HeaderTokensUpdate(m, k, "public");
    HeaderTextAfterTokenUpdate(m, FixMethod(m), k, "public");
  }

  lemma HeaderTokensUpdate(m: MethodDecl, k: nat, t: string)
    requires k < |m.modifiers|
    ensures HeaderTokens(m.(modifiers := m.modifiers[k := t])) == HeaderTokens(m)[k := t]
    ensures HeaderTokens(m)[k] == m.modifiers[k]
  {
  }

  // ---- filter facts ----

  lemma FilterConcat(a: seq<string>, b: seq<string>)
    ensures Accessibility(a + b) == Accessibility(a) + Accessibility(b)
    ensures OtherModifiers(a + b) == OtherModifiers(a) + OtherModifiers(b)
  {
    AccessibilityConcat(a, b);
    OtherModifiersConcat(a, b);
  }

  lemma {:induction false} AccessibilityConcat(a: seq<string>, b: seq<string>)
    ensures Accessibility(a + b) == Accessibility(a) + Accessibility(b)
  {
    if a == [] {
      assert a + b == b;
    } else {
      assert (a + b)[0] == a[0] && (a + b)[1..] == a[1..] + b;
      AccessibilityConcat(a[1..], b);
      var head := if IsAccessibility(a[0]) then [a[0]] else [];
      assert Accessibility(a + b) == head + (Accessibility(a[1..]) + Accessibility(b));
    }
  }

  lemma {:induction false} OtherModifiersConcat(a: seq<string>, b: seq<string>)
    ensures OtherModifiers(a + b) == OtherModifiers(a) + OtherModifiers(b)
  {
    if a == [] {
      assert a + b == b;
    } else {
      assert (a + b)[0] == a[0] && (a + b)[1..] == a[1..] + b;
      OtherModifiersConcat(a[1..], b);
      var head := if IsAccessibility(a[0]) then [] else [a[0]];
      assert OtherModifiers(a + b) == head + (OtherModifiers(a[1..]) + OtherModifiers(b));
    }
  }

  lemma FilterSplit(mods: seq<string>, k: nat)
    requires k <= |mods|
    ensures Accessibility(mods) == Accessibility(mods[..k]) + Accessibility(mods[k..])
    ensures OtherModifiers(mods) == OtherModifiers(mods[..k]) + OtherModifiers(mods[k..])
  {
    assert mods == mods[..k] + mods[k..];
    FilterConcat(mods[..k], mods[k..]);
  }

  lemma {:induction false} NoAccessibilityBefore(mods: seq<string>, k: nat)
    requires k <= |mods|
    requires forall i :: 0 <= i < k ==> !IsAccessibility(mods[i])
    ensures Accessibility(mods[..k]) == []
  {
    if k > 0 {
      assert mods[..k][1..] == mods[1..][..k - 1];
      NoAccessibilityBefore(mods[1..], k - 1);
    }
  }

  lemma {:induction false} FilterSelf(mods: seq<string>)
    requires Accessibility(mods) == []
    ensures OtherModifiers(mods) == mods
  {
    if mods != [] {
      FilterSelf(mods[1..]);
    }
  }

  lemma {:induction false} OtherModifiersHaveNoAccessibility(mods: seq<string>)
    ensures Accessibility(OtherModifiers(mods)) == []
  {
    if mods != [] {
      OtherModifiersHaveNoAccessibility(mods[1..]);
      var head := if IsAccessibility(mods[0]) then [] else [mods[0]];
      FilterConcat(head, OtherModifiers(mods[1..]));
    }
  }

  lemma OtherModifiersIdempotent(mods: seq<string>)
    ensures OtherModifiers(OtherModifiers(mods)) == OtherModifiers(mods)
  {
    OtherModifiersHaveNoAccessibility(mods);
    FilterSelf(OtherModifiers(mods));
  }

  lemma {:induction false} AccessibilityElementsIn(mods: seq<string>, x: string)
    requires x in Accessibility(mods)
    ensures x in mods
  {
    if mods != [] && !(IsAccessibility(mods[0]) && x == mods[0]) {
      AccessibilityElementsIn(mods[1..], x);
    }
  }

  lemma NoAccessibility(mods: seq<string>)
    requires forall i :: 0 <= i < |mods| ==> !IsAccessibility(mods[i])
    ensures Accessibility(mods) == []
  {
    NoAccessibilityBefore(mods, |mods|);
    assert mods[..|mods|] == mods;
  }

  lemma {:induction false} AllAccessibility(mods: seq<string>)
    requires forall i :: 0 <= i < |mods| ==> IsAccessibility(mods[i])
    ensures OtherModifiers(mods) == []
  {
    if mods != [] {
      AllAccessibility(mods[1..]);
    }
  }

  /** Two accessibility modifiers at different indices give at least two
      entries in `Accessibility`. */
  lemma OnlyOneAccessibility(mods: seq<string>, i: nat, j: nat)
    requires i < j < |mods| || j < i < |mods|
    requires IsAccessibility(mods[i]) && IsAccessibility(mods[j])
    ensures |Accessibility(mods)| >= 2
  {
    var lo, hi := if i < j then i else j, if i < j then j else i;
    FilterSplit(mods, hi);
    FilterSplit(mods[..hi], lo);
    assert mods[..hi][lo..] == [mods[lo]] + mods[..hi][lo + 1..];
    FilterConcat([mods[lo]], mods[..hi][lo + 1..]);
    assert mods[hi..] == [mods[hi]] + mods[hi + 1..];
    FilterConcat([mods[hi]], mods[hi + 1..]);
  }
}
