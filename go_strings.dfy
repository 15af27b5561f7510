/** The three functions of Go's `strings` package that the fixture reader
    uses to classify a line: `TrimSpace`, `HasPrefix` and `TrimSuffix`.
    A Go string is modelled as its sequence of runes (`seq<char>`). */
module GoStrings {

  /** `unicode.IsSpace`, the whitespace test of `strings.TrimSpace`: the six
      ASCII spaces, NEL and NO-BREAK SPACE, and the other characters with the
      Unicode White_Space property. */
  predicate IsSpace(c: char) {
    c == '\t' || c == '\n' || c == '\U{0B}' || c == '\U{0C}' || c == '\r' || c == ' '
    || c == '\U{85}' || c == '\U{A0}' || c == '\U{1680}'
    || ('\U{2000}' <= c <= '\U{200A}')
    || c == '\U{2028}' || c == '\U{2029}' || c == '\U{202F}' || c == '\U{205F}' || c == '\U{3000}'
  }

  predicate AllSpace(s: string) {
    forall i :: 0 <= i < |s| ==> IsSpace(s[i])
  }

  /** Neither the first nor the last character is a space. */
  predicate NoEdgeSpace(s: string) {
    s == [] || (!IsSpace(s[0]) && !IsSpace(s[|s| - 1]))
  }

  /** `strings.TrimLeftFunc(s, unicode.IsSpace)`: drops the leading spaces
      (see `TrimLeftSpaceSpec`). */
  function TrimLeftSpace(s: string): (r: string)
    decreases |s|
  {
    if s != [] && IsSpace(s[0]) then TrimLeftSpace(s[1..]) else s
  }

  /** `strings.TrimRightFunc(s, unicode.IsSpace)`: drops the trailing spaces
      (see `TrimRightSpaceSpec`). */
  function TrimRightSpace(s: string): (r: string)
    decreases |s|
  {
    if s != [] && IsSpace(s[|s| - 1]) then TrimRightSpace(s[..|s| - 1]) else s
  }

  /** `strings.TrimSpace`: `s` without its leading and trailing spaces (see
      `TrimSpaceSpec`). */
  function TrimSpace(s: string): (r: string) {
    TrimRightSpace(TrimLeftSpace(s))
  }

  /** `TrimLeftSpace` returns the suffix of `s` that starts at its first
      non-space character; everything before it is space. */
  lemma {:induction false} TrimLeftSpaceSpec(s: string)
    ensures |TrimLeftSpace(s)| <= |s| && TrimLeftSpace(s) == s[|s| - |TrimLeftSpace(s)|..]
    ensures AllSpace(s[..|s| - |TrimLeftSpace(s)|])
    ensures TrimLeftSpace(s) == [] || !IsSpace(TrimLeftSpace(s)[0])
    decreases |s|
  {
    if s != [] && IsSpace(s[0]) {
      TrimLeftSpaceSpec(s[1..]);
      var k := |s[1..]| - |TrimLeftSpace(s[1..])|;
      assert s[..k + 1] == [s[0]] + s[1..][..k];
    }
  }

  /** `TrimRightSpace` returns the prefix of `s` that ends at its last non-space
      character; everything after it is space. */
  lemma {:induction false} TrimRightSpaceSpec(s: string)
    ensures |TrimRightSpace(s)| <= |s| && TrimRightSpace(s) == s[..|TrimRightSpace(s)|]
    ensures AllSpace(s[|TrimRightSpace(s)|..])
    ensures TrimRightSpace(s) == [] || !IsSpace(TrimRightSpace(s)[|TrimRightSpace(s)| - 1])
    decreases |s|
  {
    if s != [] && IsSpace(s[|s| - 1]) {
      var p := s[..|s| - 1];
      TrimRightSpaceSpec(p);
      var k := |TrimRightSpace(p)|;
      assert s[k..] == p[k..] + [s[|s| - 1]];
    }
  }

  /** `TrimSpace(s)` is the infix of `s` left after removing the spaces at
      both ends: it has no space at either end, only spaces were removed,
      and it is empty exactly when `s` holds nothing but spaces. */
  lemma TrimSpaceSpec(s: string)
    ensures var r, k := TrimSpace(s), |s| - |TrimLeftSpace(s)|;
      0 <= k && k + |r| <= |s| && r == s[k..k + |r|] && AllSpace(s[..k]) && AllSpace(s[k + |r|..])
    ensures NoEdgeSpace(TrimSpace(s))
    ensures TrimSpace(s) == [] <==> AllSpace(s)
  {
    var l := TrimLeftSpace(s);
    var r := TrimSpace(s);
    var k := |s| - |l|;
    TrimLeftSpaceSpec(s);
    TrimRightSpaceSpec(l);
    assert l == s[k..];
    assert r == s[k..k + |r|];
    assert s[k + |r|..] == l[|r|..];
    TrimSpaceEmpty(s, k, l);
  }

  /** The trimmed form is empty exactly when the text is all space, given
      the split of `s` into its leading spaces `s[..k]` and the rest `l`. */
  lemma TrimSpaceEmpty(s: string, k: nat, l: string)
    requires k <= |s| && l == s[k..] && l == TrimLeftSpace(s)
    requires AllSpace(s[..k]) && (l == [] || !IsSpace(l[0]))
    requires |TrimRightSpace(l)| <= |l| && AllSpace(l[|TrimRightSpace(l)|..])
    ensures TrimSpace(s) == [] <==> AllSpace(s)
  {
    if TrimSpace(s) == [] {
      assert l[|TrimRightSpace(l)|..] == l;
      assert s == s[..k];
    }
    assert l != [] ==> l[0] == s[k];
  }

  /** `strings.HasPrefix`. */
  predicate HasPrefix(s: string, prefix: string) {
    |prefix| <= |s| && s[..|prefix|] == prefix
  }

  /** `strings.HasSuffix`. */
  predicate HasSuffix(s: string, suffix: string) {
    |suffix| <= |s| && s[|s| - |suffix|..] == suffix
  }

  /** `strings.TrimSuffix`: removes `suffix` once if `s` ends with it, and
      otherwise returns `s` unchanged. */
  function TrimSuffix(s: string, suffix: string): (r: string)
    ensures HasSuffix(s, suffix) ==> r + suffix == s
    ensures !HasSuffix(s, suffix) ==> r == s
  {
    if HasSuffix(s, suffix) then s[..|s| - |suffix|] else s
  }

  /** Leading spaces before a string that starts with a non-space are all
      that `TrimLeftSpace` removes. */
  lemma {:induction false} TrimLeftSpaceSkips(a: string, t: string)
    requires AllSpace(a) && (t == [] || !IsSpace(t[0]))
    ensures TrimLeftSpace(a + t) == t
    decreases |a|
  {
    if a != [] {
      assert (a + t)[1..] == a[1..] + t;
      TrimLeftSpaceSkips(a[1..], t);
    } else {
      assert a + t == t;
    }
  }

  /** Trailing spaces after a string that ends with a non-space are all
      that `TrimRightSpace` removes. */
  lemma {:induction false} TrimRightSpaceSkips(t: string, b: string)
    requires AllSpace(b) && (t == [] || !IsSpace(t[|t| - 1]))
    ensures TrimRightSpace(t + b) == t
    decreases |b|
  {
    if b != [] {
      assert (t + b)[..|t + b| - 1] == t + b[..|b| - 1];
      TrimRightSpaceSkips(t, b[..|b| - 1]);
    } else {
      assert t + b == t;
    }
  }

  /** Surrounding spaces do not matter to `TrimSpace`, and a string without
      edge spaces is its own trimmed form. */
  lemma TrimSpacePadded(a: string, s: string, b: string)
    requires AllSpace(a) && AllSpace(b) && NoEdgeSpace(s)
    ensures TrimSpace(a + s + b) == s
  {
    if s == [] {
      TrimSpaceSpec(a + s + b);
      assert AllSpace(a + s + b) by {
        forall i | 0 <= i < |a + s + b| ensures IsSpace((a + s + b)[i]) {
          if i < |a| { assert (a + s + b)[i] == a[i]; } else { assert (a + s + b)[i] == b[i - |a|]; }
        }
      }
    } else {
      assert a + s + b == a + (s + b);
      TrimLeftSpaceSkips(a, s + b);
      TrimRightSpaceSkips(s, b);
    }
  }

  /** `TrimSpace` is idempotent. */
  lemma TrimSpaceIdempotent(s: string)
    ensures TrimSpace(TrimSpace(s)) == TrimSpace(s)
  {
    var t := TrimSpace(s);
    TrimSpaceSpec(s);
    assert [] + t + [] == t;
    TrimSpacePadded([], t, []);
  }
}
