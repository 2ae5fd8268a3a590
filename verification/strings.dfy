/** The JavaScript string operations the wizard relies on: `trim`,
    `startsWith`, and `replace` with a string pattern. */
module Strings {

  import opened Wrappers

  /** White space as `String.prototype.trim` strips it, restricted to the
      ASCII spaces and line terminators and the no-break space. */
  predicate IsSpace(c: char) {
    c == ' ' || c == '\t' || c == '\n' || c == '\r'
    || c == '\U{B}' || c == '\U{C}' || c == '\U{A0}'
  }

  /** Neither end of `s` is white space. */
  predicate IsTrimmed(s: string) {
    s == [] || (!IsSpace(s[0]) && !IsSpace(s[|s| - 1]))
  }

  predicate AllSpace(s: string) {
    forall i :: 0 <= i < |s| ==> IsSpace(s[i])
  }

  /** How many white-space characters `s` starts with. */
  function LeadingSpace(s: string): (n: nat)
    ensures n <= |s|
    decreases |s|
  {
    if s != [] && IsSpace(s[0]) then 1 + LeadingSpace(s[1..]) else 0
  }

  /** How many white-space characters `s` ends with. */
  function TrailingSpace(s: string): (n: nat)
    ensures n <= |s|
    decreases |s|
  {
    if s != [] && IsSpace(s[|s| - 1]) then 1 + TrailingSpace(s[..|s| - 1]) else 0
  }

  /** `LeadingSpace` counts a maximal run: all of it is white space and the
      character after it is not. */
  lemma {:induction false} LeadingSpaceIsMaximal(s: string)
    ensures var n := LeadingSpace(s);
      AllSpace(s[..n]) && (n < |s| ==> !IsSpace(s[n]))
    decreases |s|
  {
    if s != [] && IsSpace(s[0]) {
      LeadingSpaceIsMaximal(s[1..]);
      var n := LeadingSpace(s[1..]);
      assert s[..n + 1] == [s[0]] + s[1..][..n];
    }
  }

  /** `TrailingSpace` counts a maximal run at the end. */
  lemma {:induction false} TrailingSpaceIsMaximal(s: string)
    ensures var n := TrailingSpace(s);
      AllSpace(s[|s| - n..]) && (n < |s| ==> !IsSpace(s[|s| - n - 1]))
    decreases |s|
  {
    if s != [] && IsSpace(s[|s| - 1]) {
      var u := s[..|s| - 1];
      TrailingSpaceIsMaximal(u);
      var n := TrailingSpace(u);
      assert s[|s| - (n + 1)..] == u[|u| - n..] + [s[|s| - 1]];
    }
  }

  /** `s.trim()`: white space removed from both ends. The result is the
      infix of `s` between an all-white-space prefix and an all-white-space
      suffix, and it is empty exactly when `s` holds nothing but white space. */
  function Trim(s: string): (r: string)
    ensures IsTrimmed(r)
    ensures r == [] <==> AllSpace(s)
    ensures var k := LeadingSpace(s);
      && k + |r| <= |s| && r == s[k..k + |r|]
      && AllSpace(s[..k]) && AllSpace(s[k + |r|..])
  {
    var k := LeadingSpace(s);
    var m := |s| - k - TrailingSpace(s[k..]);
    LeadingSpaceIsMaximal(s);
    TrailingSpaceIsMaximal(s[k..]);
    TrimParts(s, k, m);
    s[k..k + m]
  }

  /** The two runs of white space `Trim` drops, given by what the counting
      functions promise: the part kept is an infix with trimmed ends. */
  lemma TrimParts(s: string, k: nat, m: nat)
    requires k + m <= |s|
    requires AllSpace(s[..k]) && (k < |s| ==> !IsSpace(s[k]))
    requires AllSpace(s[k..][m..]) && (m > 0 ==> !IsSpace(s[k..][m - 1]))
    ensures IsTrimmed(s[k..k + m])
    ensures s[k..k + m] == [] <==> AllSpace(s)
    ensures AllSpace(s[k + m..])
  {
    assert s[k..][m..] == s[k + m..];
    if m == 0 {
      assert s[..k] == s;
    } else {
      assert !AllSpace(s) by { assert s[k..k + m][0] == s[k]; }
    }
  }

  /** Trimming leaves an already trimmed string alone. */
  lemma TrimOfTrimmed(s: string)
    requires IsTrimmed(s)
    ensures Trim(s) == s
  {
    assert LeadingSpace(s) == 0;
    assert s[0..] == s;
    assert TrailingSpace(s) == 0;
  }

  /** White space in front of a trimmed string disappears under `trim`. */
  lemma TrimDropsLeadingSpace(c: char, s: string)
    requires IsSpace(c) && IsTrimmed(s)
    ensures Trim([c] + s) == s
  {
    assert ([c] + s)[1..] == s;
    assert LeadingSpace([c] + s) == 1;
    assert TrailingSpace(s) == 0;
  }

  /** `s.startsWith(p)`. */
  predicate StartsWith(s: string, p: string) {
    |p| <= |s| && s[..|p|] == p
  }

  /** `s.indexOf(p, k)`: the first position at or after `k` where `p` occurs. */
  function IndexOfFrom(s: string, p: string, k: nat): (r: Option<nat>)
    requires k <= |s|
    ensures r.Some? ==> k <= r.value <= |s| && StartsWith(s[r.value..], p)
    ensures r.Some? ==> forall j :: k <= j < r.value ==> !StartsWith(s[j..], p)
    ensures r.None? ==> forall j :: k <= j <= |s| ==> !StartsWith(s[j..], p)
    decreases |s| - k
  {
    if StartsWith(s[k..], p) then Some(k)
    else if k == |s| then None
    else IndexOfFrom(s, p, k + 1)
  }

  /** `s.replace(p, rep)` with a string pattern: only the first occurrence
      of `p` is replaced, and `s` is returned as is when `p` does not occur. */
  function ReplaceFirst(s: string, p: string, rep: string): (r: string)
    ensures StartsWith(s, p) ==> r == rep + s[|p|..]
    ensures (forall j :: 0 <= j <= |s| ==> !StartsWith(s[j..], p)) ==> r == s
    ensures (exists j :: 0 <= j <= |s| && StartsWith(s[j..], p)) ==> |r| == |s| - |p| + |rep|
  {
    assert s[0..] == s;
    match IndexOfFrom(s, p, 0)
    case None => s
    case Some(i) => s[..i] + rep + s[i + |p|..]
  }
}
