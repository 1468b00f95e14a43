/** The three line patterns of the RC-file editor, for a session or alias
    name `N` (quoted literally):

      `^\s*alias\s+N=`                                   an alias definition
      `^\s*alias\s+.*=.*#\s*dolly-managed:\s*N`          a managed line
      `^\s*alias\s+.*=.*#\s*dolly-managed:\s*N\s*$`      an exactly managed line

    Each is given twice: as the set of ways the expression can match (the
    `...Re` ghost predicates, with one witness per quantified position), and as
    a deterministic left-to-right scan that the editor runs. The two are
    proved equivalent. Lines never contain a newline, so `.` matches any
    character of a line. */
module RcPatterns {
  import opened Strings

  /** The keyword of the managed marker. */
  const ManagedKeyword: string := "dolly-managed:"

  /** `\s` of Go's regular expressions: space, tab, newline, form feed and
      carriage return. */
  predicate ReSpace(c: char) {
    c == ' ' || c == '\t' || c == '\n' || c == '\U{C}' || c == '\r'
  }

  /** `s` matches `\s*`. */
  ghost predicate AllReSpace(s: string) {
    forall k | 0 <= k < |s| :: ReSpace(s[k])
  }

  /** The length of the longest prefix of `s` matching `\s*`. */
  function LeadSpaces(s: string): nat
    decreases |s|
  {
    if |s| > 0 && ReSpace(s[0]) then 1 + LeadSpaces(s[1..]) else 0
  }

  lemma {:induction false} LeadSpacesFacts(s: string)
    ensures LeadSpaces(s) <= |s|
    ensures AllReSpace(s[..LeadSpaces(s)])
    ensures LeadSpaces(s) < |s| ==> !ReSpace(s[LeadSpaces(s)])
    decreases |s|
  {
    if |s| > 0 && ReSpace(s[0]) {
      LeadSpacesFacts(s[1..]);
      var n := LeadSpaces(s);
      var t, u := s[..n], s[1..][..n - 1];
      forall k | 0 <= k < n
        ensures ReSpace(t[k])
      {
        if k > 0 {
          assert t[k] == u[k - 1];
        }
      }
    }
  }

  /** The white-space prefix ends at the first character that is not white
      space. */
  lemma {:induction false} LeadSpacesUnique(s: string, i: nat)
    requires i <= |s| && AllReSpace(s[..i]) && (i < |s| ==> !ReSpace(s[i]))
    ensures LeadSpaces(s) == i
    decreases i
  {
    if i > 0 {
      var t, u := s[..i], s[1..][..i - 1];
      assert t[0] == s[0];
      forall k | 0 <= k < i - 1
        ensures ReSpace(u[k])
      {
        assert u[k] == t[k + 1];
      }
      if i - 1 < |s[1..]| {
        assert s[1..][i - 1] == s[i];
      }
      LeadSpacesUnique(s[1..], i - 1);
    }
  }

  /** All of `s` is white space exactly when its white-space prefix is all of
      it. */
  lemma LeadSpacesAll(s: string)
    ensures LeadSpaces(s) == |s| <==> AllReSpace(s)
  {
    LeadSpacesFacts(s);
    assert s[..|s|] == s;
    if AllReSpace(s) {
      LeadSpacesUnique(s, |s|);
    }
  }

  // ---------------------------------------------------------------- scans

  /** The literal `w` at position `k`, followed by the end of the line when
      `anchored` (`w\s*$`). */
  predicate TailAt(line: string, k: nat, w: string, anchored: bool)
    requires k <= |line|
  {
    HasPrefix(line[k..], w) && (anchored ==> LeadSpaces(line[k + |w|..]) == |line| - k - |w|)
  }

  /** `\s*w` (then `\s*$` when `anchored`) matches from position `j`: `w`
      after some white space, trying the shortest white space first. */
  predicate SpacesThen(line: string, j: nat, w: string, anchored: bool)
    requires j <= |line|
    decreases |line| - j
  {
    TailAt(line, j, w, anchored) || (j < |line| && ReSpace(line[j]) && SpacesThen(line, j + 1, w, anchored))
  }

  /** `^\s*alias\s+N=` matches `line`: the line defines the alias `name`. */
  predicate DefinesAlias(line: string, name: string) {
    var i := LeadSpaces(line);
    i + 5 < |line| && line[i..i + 5] == "alias" && ReSpace(line[i + 5]) && SpacesThen(line, i + 6, name + "=", false)
  }

  /** `#\s*dolly-managed:\s*N` (then `\s*$` when `anchored`) matches from
      position `q`. */
  predicate MarkerAt(line: string, q: nat, s: string, anchored: bool)
    requires q < |line|
  {
    line[q] == '#'
    && var a := q + 1 + LeadSpaces(line[q + 1..]);
       a + 14 <= |line| && line[a..a + 14] == ManagedKeyword && SpacesThen(line, a + 14, s, anchored)
  }

  /** The marker matches at some position from `q` on. */
  predicate MarkerFrom(line: string, q: nat, s: string, anchored: bool)
    requires q <= |line|
    decreases |line| - q
  {
    q < |line| && (MarkerAt(line, q, s, anchored) || MarkerFrom(line, q + 1, s, anchored))
  }

  /** `.*=.*#\s*dolly-managed:\s*N` matches from position `p`. */
  predicate EqualsThenMarker(line: string, p: nat, s: string, anchored: bool)
    requires p <= |line|
    decreases |line| - p
  {
    p < |line| && ((line[p] == '=' && MarkerFrom(line, p + 1, s, anchored)) || EqualsThenMarker(line, p + 1, s, anchored))
  }

  /** `^\s*alias\s+.*=.*#\s*dolly-managed:\s*N` matches `line`, ending with
      `\s*$` when `anchored`. */
  predicate ManagedLine(line: string, s: string, anchored: bool) {
    var i := LeadSpaces(line);
    i + 5 < |line| && line[i..i + 5] == "alias" && ReSpace(line[i + 5]) && EqualsThenMarker(line, i + 6, s, anchored)
  }

  // ---------------------------------------------------------------- the ways to match

  /** `w` at `k`, then only white space when `anchored`. */
  ghost predicate TailRe(line: string, k: nat, w: string, anchored: bool)
    requires k <= |line|
  {
    HasPrefix(line[k..], w) && (anchored ==> AllReSpace(line[k + |w|..]))
  }

  /** `^\s*alias\s+` matches `line[..j]`, with the keyword at `i`. */
  ghost predicate AliasHeadRe(line: string, i: int, j: int) {
    0 <= i && i + 5 < j <= |line|
    && AllReSpace(line[..i]) && line[i..i + 5] == "alias" && AllReSpace(line[i + 5..j])
  }

  /** The ways `^\s*alias\s+N=` matches. */
  ghost predicate DefinesAliasRe(line: string, name: string) {
    exists i, j | 0 <= i < |line| && 0 <= j <= |line| :: AliasHeadRe(line, i, j) && TailRe(line, j, name + "=", false)
  }

  /** `#\s*dolly-managed:\s*N` (`\s*$`) matches from `q`, with the keyword at
      `a` and the name at `b`. */
  ghost predicate MarkerSplitRe(line: string, q: int, a: int, b: int, s: string, anchored: bool) {
    0 <= q < a && a + 14 <= b <= |line| && line[q] == '#'
    && AllReSpace(line[q + 1..a]) && line[a..a + 14] == ManagedKeyword
    && AllReSpace(line[a + 14..b]) && TailRe(line, b, s, anchored)
  }

  /** The ways `#\s*dolly-managed:\s*N` (`\s*$`) matches from `q`. */
  ghost predicate MarkerRe(line: string, q: int, s: string, anchored: bool) {
    exists a, b | 0 <= a <= |line| && 0 <= b <= |line| :: MarkerSplitRe(line, q, a, b, s, anchored)
  }

  /** `.*=.*` followed by the marker: an `=` at `p` and the marker at `q`. */
  ghost predicate EqualsMarkerRe(line: string, p: int, q: int, s: string, anchored: bool) {
    0 <= p < q < |line| && line[p] == '=' && MarkerRe(line, q, s, anchored)
  }

  /** The ways the managed pattern matches. */
  ghost predicate ManagedLineRe(line: string, s: string, anchored: bool) {
    exists i, j, p, q | 0 <= i < |line| && 0 <= j <= |line| && 0 <= p < |line| && 0 <= q < |line| ::
      AliasHeadRe(line, i, j) && j <= p && EqualsMarkerRe(line, p, q, s, anchored)
  }

  // ---------------------------------------------------------------- equivalence

  lemma TailAtIff(line: string, k: nat, w: string, anchored: bool)
    requires k <= |line|
    ensures TailAt(line, k, w, anchored) <==> TailRe(line, k, w, anchored)
  {
    if HasPrefix(line[k..], w) {
      LeadSpacesAll(line[k + |w|..]);
    }
  }

  lemma AllReSpaceCons(line: string, j: nat, k: nat)
    requires j < k <= |line|
    ensures AllReSpace(line[j..k]) <==> ReSpace(line[j]) && AllReSpace(line[j + 1..k])
  {
    var t, u := line[j..k], line[j + 1..k];
    assert t[0] == line[j];
    assert forall m | 0 <= m < k - j - 1 :: u[m] == t[m + 1];
  }

  /** The scan for `\s*w` finds a match exactly when one exists. */
  lemma {:induction false} SpacesThenIff(line: string, j: nat, w: string, anchored: bool)
    requires j <= |line|
    ensures SpacesThen(line, j, w, anchored) <==>
      exists k | j <= k <= |line| :: AllReSpace(line[j..k]) && TailRe(line, k, w, anchored)
    decreases |line| - j
  {
    TailAtIff(line, j, w, anchored);
    if j < |line| {
      SpacesThenIff(line, j + 1, w, anchored);
    }
    if SpacesThen(line, j, w, anchored) {
      if TailAt(line, j, w, anchored) {
        assert AllReSpace(line[j..j]) && TailRe(line, j, w, anchored);
      } else {
        var k :| j + 1 <= k <= |line| && AllReSpace(line[j + 1..k]) && TailRe(line, k, w, anchored);
        AllReSpaceCons(line, j, k);
      }
    } else {
      forall k | j <= k <= |line|
        ensures !(AllReSpace(line[j..k]) && TailRe(line, k, w, anchored))
      {
        if k > j {
          AllReSpaceCons(line, j, k);
        }
      }
    }
  }

  /** Where `^\s*alias` can put its keyword: only after the leading white
      space. */
  lemma AliasKeyword(line: string, i: int)
    requires 0 <= i && i + 5 <= |line| && AllReSpace(line[..i]) && line[i..i + 5] == "alias"
    ensures i == LeadSpaces(line)
  {
    assert line[i] == line[i..i + 5][0] == 'a';
    LeadSpacesUnique(line, i);
  }

  /** `^\s*alias\s+` followed by more at `j`: the white space after the keyword
      is one character and then the rest. */
  lemma AliasHeadIff(line: string, j: nat)
    requires LeadSpaces(line) + 6 <= j <= |line|
    ensures var i := LeadSpaces(line);
      AliasHeadRe(line, i, j) <==> line[i..i + 5] == "alias" && ReSpace(line[i + 5]) && AllReSpace(line[i + 6..j])
  {
    var i := LeadSpaces(line);
    LeadSpacesFacts(line);
    AllReSpaceCons(line, i + 5, j);
  }

  /** The scan for an alias definition agrees with the regular expression. */
  lemma DefinesAliasIff(line: string, name: string)
    ensures DefinesAlias(line, name) <==> DefinesAliasRe(line, name)
  {
    var i := LeadSpaces(line);
    var w := name + "=";
    LeadSpacesFacts(line);
    if DefinesAlias(line, name) {
      SpacesThenIff(line, i + 6, w, false);
      var k :| i + 6 <= k <= |line| && AllReSpace(line[i + 6..k]) && TailRe(line, k, w, false);
      AliasHeadIff(line, k);
      assert AliasHeadRe(line, i, k) && TailRe(line, k, w, false);
    }
    if DefinesAliasRe(line, name) {
      var i', j :| 0 <= i' < |line| && 0 <= j <= |line| && AliasHeadRe(line, i', j) && TailRe(line, j, w, false);
      AliasKeyword(line, i');
      AliasHeadIff(line, j);
      SpacesThenIff(line, i + 6, w, false);
      assert AllReSpace(line[i + 6..j]) && TailRe(line, j, w, false);
    }
  }

  /** The scan for the marker at `q` agrees with the regular expression. */
  lemma MarkerAtIff(line: string, q: nat, s: string, anchored: bool)
    requires q < |line|
    ensures MarkerAt(line, q, s, anchored) <==> MarkerRe(line, q, s, anchored)
  {
    if MarkerAt(line, q, s, anchored) {
      MarkerFound(line, q, s, anchored);
    }
    if MarkerRe(line, q, s, anchored) {
      var a, b :| 0 <= a <= |line| && 0 <= b <= |line| && MarkerSplitRe(line, q, a, b, s, anchored);
      MarkerScanned(line, q, a, b, s, anchored);
    }
  }

  lemma MarkerScanned(line: string, q: nat, a: int, b: int, s: string, anchored: bool)
    requires MarkerSplitRe(line, q, a, b, s, anchored)
    ensures MarkerAt(line, q, s, anchored)
  {
    MarkerKeyword(line, q, a);
    SpacesThenIff(line, a + 14, s, anchored);
    assert a + 14 <= b <= |line| && AllReSpace(line[a + 14..b]) && TailRe(line, b, s, anchored);
  }

  lemma MarkerFound(line: string, q: nat, s: string, anchored: bool)
    requires q < |line| && MarkerAt(line, q, s, anchored)
    ensures MarkerRe(line, q, s, anchored)
  {
    var rest := line[q + 1..];
    var a := q + 1 + LeadSpaces(rest);
    LeadSpacesFacts(rest);
    assert rest[..LeadSpaces(rest)] == line[q + 1..a];
    SpacesThenIff(line, a + 14, s, anchored);
    var b :| a + 14 <= b <= |line| && AllReSpace(line[a + 14..b]) && TailRe(line, b, s, anchored);
    assert MarkerSplitRe(line, q, a, b, s, anchored);
  }

  /** Where the marker can put its keyword: only after the white space that
      follows `#`. */
  lemma MarkerKeyword(line: string, q: nat, a: int)
    requires q < a && a + 14 <= |line| && AllReSpace(line[q + 1..a]) && line[a..a + 14] == ManagedKeyword
    ensures a == q + 1 + LeadSpaces(line[q + 1..])
  {
    var rest := line[q + 1..];
    assert rest[..a - q - 1] == line[q + 1..a];
    assert rest[a - q - 1] == line[a] == line[a..a + 14][0] == 'd';
    LeadSpacesUnique(rest, a - q - 1);
  }

  /** The scan for a marker from `q0` on finds one exactly when one exists. */
  lemma {:induction false} MarkerFromIff(line: string, q0: nat, s: string, anchored: bool)
    requires q0 <= |line|
    ensures MarkerFrom(line, q0, s, anchored) <==> exists q | q0 <= q < |line| :: MarkerRe(line, q, s, anchored)
    decreases |line| - q0
  {
    if q0 < |line| {
      MarkerAtIff(line, q0, s, anchored);
      MarkerFromIff(line, q0 + 1, s, anchored);
    }
  }

  /** The scan for `.*=.*#…` from `p0` finds a match exactly when one
      exists. */
  lemma {:induction false} EqualsThenMarkerIff(line: string, p0: nat, s: string, anchored: bool)
    requires p0 <= |line|
    ensures EqualsThenMarker(line, p0, s, anchored) <==>
      exists p, q | p0 <= p < |line| && 0 <= q < |line| :: EqualsMarkerRe(line, p, q, s, anchored)
    decreases |line| - p0
  {
    if p0 < |line| {
      MarkerFromIff(line, p0 + 1, s, anchored);
      EqualsThenMarkerIff(line, p0 + 1, s, anchored);
      if line[p0] == '=' && MarkerFrom(line, p0 + 1, s, anchored) {
        var q :| p0 + 1 <= q < |line| && MarkerRe(line, q, s, anchored);
        assert EqualsMarkerRe(line, p0, q, s, anchored);
      }
    }
  }

  /** The scan for a managed line agrees with the regular expression. */
  lemma ManagedLineIff(line: string, s: string, anchored: bool)
    ensures ManagedLine(line, s, anchored) <==> ManagedLineRe(line, s, anchored)
  {
    if ManagedLine(line, s, anchored) {
      ManagedLineFound(line, s, anchored);
    }
    if ManagedLineRe(line, s, anchored) {
      var i, j, p, q :| 0 <= i < |line| && 0 <= j <= |line| && 0 <= p < |line| && 0 <= q < |line|
        && AliasHeadRe(line, i, j) && j <= p && EqualsMarkerRe(line, p, q, s, anchored);
      ManagedLineScanned(line, s, anchored, i, j, p, q);
    }
  }

  lemma ManagedLineFound(line: string, s: string, anchored: bool)
    requires ManagedLine(line, s, anchored)
    ensures ManagedLineRe(line, s, anchored)
  {
    var i := LeadSpaces(line);
    LeadSpacesFacts(line);
    EqualsThenMarkerIff(line, i + 6, s, anchored);
    var p, q :| i + 6 <= p < |line| && 0 <= q < |line| && EqualsMarkerRe(line, p, q, s, anchored);
    AliasHeadIff(line, i + 6);
    assert AliasHeadRe(line, i, i + 6);
  }

  lemma ManagedLineScanned(line: string, s: string, anchored: bool, i': int, j: int, p: int, q: int)
    requires AliasHeadRe(line, i', j) && j <= p && EqualsMarkerRe(line, p, q, s, anchored)
    ensures ManagedLine(line, s, anchored)
  {
    var i := LeadSpaces(line);
    AliasKeyword(line, i');
    AliasHeadIff(line, j);
    EqualsThenMarkerAt(line, i + 6, p, q, s, anchored);
  }

  /** A match of `.*=.*#…` at `(p, q)` is found by the scan from any `p0`
      up to `p`. */
  lemma EqualsThenMarkerAt(line: string, p0: nat, p: int, q: int, s: string, anchored: bool)
    requires p0 <= p && EqualsMarkerRe(line, p, q, s, anchored)
    ensures EqualsThenMarker(line, p0, s, anchored)
  {
    EqualsThenMarkerIff(line, p0, s, anchored);
  }

  // ---------------------------------------------------------------- consequences

  /** The end-anchored scan succeeding implies the scan without the anchor
      does. */
  lemma {:induction false} SpacesThenUnanchor(line: string, j: nat, w: string)
    requires j <= |line| && SpacesThen(line, j, w, true)
    ensures SpacesThen(line, j, w, false)
    decreases |line| - j
  {
    if !TailAt(line, j, w, true) {
      SpacesThenUnanchor(line, j + 1, w);
    }
  }

  lemma {:induction false} MarkerFromUnanchor(line: string, q: nat, s: string)
    requires q <= |line| && MarkerFrom(line, q, s, true)
    ensures MarkerFrom(line, q, s, false)
    decreases |line| - q
  {
    if MarkerAt(line, q, s, true) {
      SpacesThenUnanchor(line, q + 1 + LeadSpaces(line[q + 1..]) + 14, s);
    } else {
      MarkerFromUnanchor(line, q + 1, s);
    }
  }

  lemma {:induction false} EqualsThenMarkerUnanchor(line: string, p: nat, s: string)
    requires p <= |line| && EqualsThenMarker(line, p, s, true)
    ensures EqualsThenMarker(line, p, s, false)
    decreases |line| - p
  {
    if line[p] == '=' && MarkerFrom(line, p + 1, s, true) {
      MarkerFromUnanchor(line, p + 1, s);
    } else {
      EqualsThenMarkerUnanchor(line, p + 1, s);
    }
  }

  /** A line the end-anchored pattern matches also matches the unanchored
      one. */
  lemma AnchoredIsManaged(line: string, s: string)
    requires ManagedLine(line, s, true)
    ensures ManagedLine(line, s, false)
  {
    EqualsThenMarkerUnanchor(line, LeadSpaces(line) + 6, s);
  }
}
