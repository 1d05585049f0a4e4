/**
 * The two Ruby String operations the tracking core relies on:
 * `String#strip` (applied to FedEx error messages) and `String#casecmp?`
 * (used for error messages and for carrier names).
 */
module RubyString {

  /** Characters `String#strip` removes: null, tab, line feed, vertical tab,
      form feed, carriage return and space. */
  const WHITESPACE: set<char> := {'\0', '\t', '\n', '\U{000B}', '\U{000C}', '\r', ' '}

  predicate IsSpace(c: char) {
    c in WHITESPACE
  }

  /** How many whitespace characters `s` starts with. */
  function LeadingSpaces(s: string): (n: nat)
    ensures n <= |s|
  {
    if s != [] && IsSpace(s[0]) then 1 + LeadingSpaces(s[1..]) else 0
  }

  /** How many whitespace characters `s` ends with. */
  function TrailingSpaces(s: string): (n: nat)
    ensures n <= |s|
  {
    if s != [] && IsSpace(s[|s| - 1]) then 1 + TrailingSpaces(s[..|s| - 1]) else 0
  }

  /** `String#lstrip`: `s` without its leading whitespace. */
  function StripStart(s: string): string {
    s[LeadingSpaces(s)..]
  }

  /** `String#rstrip`: `s` without its trailing whitespace. */
  function StripEnd(s: string): string {
    s[..|s| - TrailingSpaces(s)]
  }

  /** `String#strip`: `s` without whitespace at either end. */
  function Strip(s: string): string {
    StripEnd(StripStart(s))
  }

  /** The leading run counted is all whitespace, and it stops at the first
      other character. */
  lemma {:induction false} LeadingSpacesSpec(s: string)
    ensures forall i :: 0 <= i < LeadingSpaces(s) ==> IsSpace(s[i])
    ensures LeadingSpaces(s) == |s| || !IsSpace(s[LeadingSpaces(s)])
  {
    if s != [] && IsSpace(s[0]) {
      var t := s[1..];
      LeadingSpacesSpec(t);
      forall i | 1 <= i < LeadingSpaces(s) ensures IsSpace(s[i]) {
        assert s[i] == t[i - 1];
      }
      assert LeadingSpaces(s) == |s| || s[LeadingSpaces(s)] == t[LeadingSpaces(t)];
    }
  }

  /** The trailing run counted is all whitespace, and it stops at the last
      other character. */
  lemma {:induction false} TrailingSpacesSpec(s: string)
    ensures forall i :: |s| - TrailingSpaces(s) <= i < |s| ==> IsSpace(s[i])
    ensures TrailingSpaces(s) == |s| || !IsSpace(s[|s| - TrailingSpaces(s) - 1])
  {
    if s != [] && IsSpace(s[|s| - 1]) {
      var t := s[..|s| - 1];
      TrailingSpacesSpec(t);
      forall i | |s| - TrailingSpaces(s) <= i < |s| - 1 ensures IsSpace(s[i]) {
        assert s[i] == t[i];
      }
      assert TrailingSpaces(s) == |s| || s[|s| - TrailingSpaces(s) - 1] == t[|t| - TrailingSpaces(t) - 1];
    }
  }

  /** `strip` keeps the slice of `s` that starts after the leading
      whitespace; only whitespace lies outside that slice. */
  lemma StripSlice(s: string)
    ensures LeadingSpaces(s) + |Strip(s)| <= |s|
    ensures Strip(s) == s[LeadingSpaces(s)..LeadingSpaces(s) + |Strip(s)|]
    ensures forall i :: 0 <= i < LeadingSpaces(s) ==> IsSpace(s[i])
    ensures forall i :: LeadingSpaces(s) + |Strip(s)| <= i < |s| ==> IsSpace(s[i])
  {
    var lead := LeadingSpaces(s);
    var t := s[lead..];
    var k := |t| - TrailingSpaces(t);
    assert Strip(s) == t[..k] == s[lead..lead + k];
    LeadingSpacesSpec(s);
    TrailingSpacesSpec(t);
    forall i | lead + k <= i < |s| ensures IsSpace(s[i]) {
      assert s[i] == t[i - lead];
    }
  }

  /** The result of `strip` neither starts nor ends with whitespace, and it
      is empty exactly when `s` is all whitespace. */
  lemma StripSpec(s: string)
    ensures Strip(s) != [] ==> !IsSpace(Strip(s)[0]) && !IsSpace(Strip(s)[|Strip(s)| - 1])
    ensures Strip(s) == [] <==> forall i :: 0 <= i < |s| ==> IsSpace(s[i])
  {
    var lead := LeadingSpaces(s);
    var t := s[lead..];
    var r := Strip(s);
    StripSlice(s);
    LeadingSpacesSpec(s);
    TrailingSpacesSpec(t);
    if r != [] {
      assert r[0] == s[lead] && r[|r| - 1] == t[|t| - TrailingSpaces(t) - 1];
    } else {
      assert lead + TrailingSpaces(t) == |s|;
    }
  }

  /** A string with no whitespace at either end is left as it is. */
  lemma StripClean(s: string)
    requires s == [] || (!IsSpace(s[0]) && !IsSpace(s[|s| - 1]))
    ensures Strip(s) == s
  {
  }

  /** Stripping twice is stripping once. */
  lemma StripIdempotent(s: string)
    ensures Strip(Strip(s)) == Strip(s)
  {
    StripSpec(s);
    StripClean(Strip(s));
  }

  /** ASCII down-casing of one character. */
  function ToLower(c: char): char {
    if 'A' <= c <= 'Z' then (c as int + 32) as char else c
  }

  /** `String#casecmp?`: the two strings agree character by character once
      both are down-cased. */
  predicate CaseEq(a: string, b: string) {
    |a| == |b| && (a == [] || (ToLower(a[0]) == ToLower(b[0]) && CaseEq(a[1..], b[1..])))
  }

  /** `casecmp?` holds exactly when the lengths agree and the down-cased
      characters agree at every position. */
  lemma {:induction false} CaseEqPointwise(a: string, b: string)
    ensures CaseEq(a, b) <==> |a| == |b| && forall i :: 0 <= i < |a| ==> ToLower(a[i]) == ToLower(b[i])
  {
    if |a| == |b| && a != [] {
      CaseEqPointwise(a[1..], b[1..]);
      assert forall i :: 1 <= i < |a| ==> a[i] == a[1..][i - 1] && b[i] == b[1..][i - 1];
    }
  }

  /** `casecmp?` is an equivalence: reflexive, symmetric and transitive. */
  lemma CaseEqEquivalence(a: string, b: string, c: string)
    ensures CaseEq(a, a)
    ensures CaseEq(a, b) ==> CaseEq(b, a)
    ensures CaseEq(a, b) && CaseEq(b, c) ==> CaseEq(a, c)
  {
    CaseEqPointwise(a, a);
    CaseEqPointwise(a, b);
    CaseEqPointwise(b, a);
    CaseEqPointwise(b, c);
    CaseEqPointwise(a, c);
  }
}
