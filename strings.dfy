/** The pieces of Go's `strings`, `strconv` and `fmt` packages that the core
    relies on: `strings.Split`/`strings.Join` on a one-character separator,
    `strings.TrimSpace`, `strings.HasPrefix`, the decimal rendering of `%d`
    and the letter-case folding used by `strings.ToLower` comparisons. */
module Strings {

  /** `strings.Split(s, string(sep))`: the pieces between separators. The
      empty string splits into one empty piece, and a trailing separator
      yields a trailing empty piece. */
  function Split(s: string, sep: char): (r: seq<string>)
    ensures |r| >= 1
    ensures forall i :: 0 <= i < |r| ==> sep !in r[i]
    decreases |s|
  {
    if |s| == 0 then [""]
    else
      var rest := Split(s[1..], sep);
      if s[0] == sep then [""] + rest
      else [[s[0]] + rest[0]] + rest[1..]
  }

  /** `strings.Join(parts, string(sep))`. */
  function Join(parts: seq<string>, sep: char): string
    decreases |parts|
  {
    if |parts| == 0 then ""
    else if |parts| == 1 then parts[0]
    else parts[0] + [sep] + Join(parts[1..], sep)
  }

  lemma JoinConsHead(c: char, first: string, rest: seq<string>, sep: char)
    ensures Join([[c] + first] + rest, sep) == [c] + Join([first] + rest, sep)
  {
    if |rest| > 0 {
      assert ([[c] + first] + rest)[1..] == rest;
      assert ([first] + rest)[1..] == rest;
    }
  }

  /** Joining the pieces of a split gives back the original string. */
  lemma {:induction false} JoinSplit(s: string, sep: char)
    ensures Join(Split(s, sep), sep) == s
    decreases |s|
  {
    if |s| > 0 {
      var rest := Split(s[1..], sep);
      JoinSplit(s[1..], sep);
      if s[0] == sep {
        assert ([""] + rest)[1..] == rest;
      } else {
        JoinConsHead(s[0], rest[0], rest[1..], sep);
        assert [rest[0]] + rest[1..] == rest;
      }
    }
  }

  /** Splitting at a separator splits the two sides independently. */
  lemma {:induction false} SplitAppend(a: string, b: string, sep: char)
    ensures Split(a + [sep] + b, sep) == Split(a, sep) + Split(b, sep)
    decreases |a|
  {
    var s := a + [sep] + b;
    if |a| == 0 {
      assert s == [sep] + b;
      assert s[1..] == b;
    } else {
      assert s[0] == a[0] && s[1..] == a[1..] + [sep] + b;
      SplitAppend(a[1..], b, sep);
      var ra, rb := Split(a[1..], sep), Split(b, sep);
      assert Split(s[1..], sep) == ra + rb;
      SplitConsAppend(a[0], sep, ra, rb);
    }
  }

  /** The split of `c` followed by pieces `ra + rb`, from the split of `c`
      followed by `ra`. */
  lemma SplitConsAppend(c: char, sep: char, ra: seq<string>, rb: seq<string>)
    requires |ra| >= 1
    ensures var r := ra + rb;
      (if c == sep then [""] + r else [[c] + r[0]] + r[1..])
      == (if c == sep then [""] + ra else [[c] + ra[0]] + ra[1..]) + rb
  {
    assert (ra + rb)[0] == ra[0];
    assert (ra + rb)[1..] == ra[1..] + rb;
  }

  /** A string without separators is a single piece. */
  lemma {:induction false} SplitNoSep(s: string, sep: char)
    requires sep !in s
    ensures Split(s, sep) == [s]
    decreases |s|
  {
    if |s| > 0 {
      assert s[1..] == s[1..];
      assert forall c :: c in s[1..] ==> c in s;
      SplitNoSep(s[1..], sep);
      assert [s[0]] + s[1..] == s;
    }
  }

  /** Splitting a join of separator-free pieces gives back the pieces (there
      must be at least one: `Join([])` and `Join([""])` are both empty). */
  lemma {:induction false} SplitJoin(parts: seq<string>, sep: char)
    requires |parts| >= 1
    requires forall i :: 0 <= i < |parts| ==> sep !in parts[i]
    ensures Split(Join(parts, sep), sep) == parts
    decreases |parts|
  {
    if |parts| == 1 {
      SplitNoSep(parts[0], sep);
    } else {
      SplitJoin(parts[1..], sep);
      SplitAppend(parts[0], Join(parts[1..], sep), sep);
      SplitNoSep(parts[0], sep);
      assert [parts[0]] + parts[1..] == parts;
    }
  }

  /** `strings.HasPrefix`. */
  predicate HasPrefix(s: string, prefix: string) {
    |prefix| <= |s| && s[..|prefix|] == prefix
  }

  /** Go's `unicode.IsSpace`: the Latin-1 spaces and the White_Space code points
      above them. */
  predicate IsSpace(c: char) {
    c == ' ' || ('\t' <= c <= '\r') || c == '\U{85}' || c == '\U{A0}' || c == '\U{1680}'
    || ('\U{2000}' <= c <= '\U{200A}') || c == '\U{2028}' || c == '\U{2029}'
    || c == '\U{202F}' || c == '\U{205F}' || c == '\U{3000}'
  }

  /** `s` with its leading white space removed. */
  function TrimLeft(s: string): (r: string)
    ensures |r| <= |s| && r == s[|s| - |r|..]
    ensures forall i :: 0 <= i < |s| - |r| ==> IsSpace(s[i])
    ensures r == [] || !IsSpace(r[0])
    decreases |s|
  {
    if |s| > 0 && IsSpace(s[0]) then TrimLeft(s[1..]) else s
  }

  /** `s` with its trailing white space removed. */
  function TrimRight(s: string): (r: string)
    ensures |r| <= |s| && r == s[..|r|]
    ensures forall i :: |r| <= i < |s| ==> IsSpace(s[i])
    ensures r == [] || !IsSpace(r[|r| - 1])
    decreases |s|
  {
    if |s| > 0 && IsSpace(s[|s| - 1]) then TrimRight(s[..|s| - 1]) else s
  }

  /** `strings.TrimSpace`: the longest middle part of `s` that neither starts
      nor ends with white space; everything removed is white space. */
  function TrimSpace(s: string): (r: string)
    ensures r == [] || (!IsSpace(r[0]) && !IsSpace(r[|r| - 1]))
  {
    TrimRight(TrimLeft(s))
  }

  /** Where the trimmed part of `s` starts. */
  function TrimStart(s: string): nat {
    |s| - |TrimLeft(s)|
  }

  /** The trimmed string is a slice of the original, and everything before
      and after that slice is white space. */
  lemma TrimSpaceSlice(s: string)
    ensures TrimStart(s) + |TrimSpace(s)| <= |s|
    ensures TrimSpace(s) == s[TrimStart(s)..TrimStart(s) + |TrimSpace(s)|]
    ensures forall i :: 0 <= i < TrimStart(s) ==> IsSpace(s[i])
    ensures forall i :: TrimStart(s) + |TrimSpace(s)| <= i < |s| ==> IsSpace(s[i])
  {
    var l := TrimLeft(s);
    var k := |s| - |l|;
    var r := TrimRight(l);
    assert TrimStart(s) == k && TrimSpace(s) == r;
    TrimLeftHead(s);
    assert r == l[..|r|] && l == s[k..];
    assert s[k..][..|r|] == s[k..k + |r|];
    TrimRightTail(s, k, r);
  }

  /** The white space `TrimLeft` removes lies at the start of `s`. */
  lemma TrimLeftHead(s: string)
    ensures forall i :: 0 <= i < |s| - |TrimLeft(s)| ==> IsSpace(s[i])
  {
  }

  /** The white space `TrimRight` removes from the slice `s[k..]` lies at the
      end of `s`. */
  lemma TrimRightTail(s: string, k: nat, r: string)
    requires k <= |s| && r == TrimRight(s[k..])
    ensures forall i :: k + |r| <= i < |s| ==> IsSpace(s[i])
  {
    var l := s[k..];
    forall i | k + |r| <= i < |s|
      ensures IsSpace(s[i])
    {
      assert s[i] == l[i - k];
    }
  }

  /** A string that neither starts nor ends with white space is left as it
      is. */
  lemma TrimSpaceClean(s: string)
    requires s == [] || (!IsSpace(s[0]) && !IsSpace(s[|s| - 1]))
    ensures TrimSpace(s) == s
  {
  }

  /** Trimming only removes characters. */
  lemma TrimSpaceWithin(s: string)
    ensures forall c :: c in TrimSpace(s) ==> c in s
  {
    TrimSpaceSlice(s);
    var r := TrimSpace(s);
    var k := TrimStart(s);
    forall i | 0 <= i < |r|
      ensures r[i] in s
    {
      assert r[i] == s[k..k + |r|][i] == s[k + i];
    }
  }

  /** The character of a decimal digit. */
  function DigitChar(d: nat): (c: char)
    requires d < 10
    ensures '0' <= c <= '9' && c as int - '0' as int == d
  {
    (d + '0' as int) as char
  }

  /** The decimal rendering of `n`, as `%d` and `strconv.Itoa` write it. */
  function NatToString(n: nat): (r: string)
    ensures |r| >= 1
    ensures forall i :: 0 <= i < |r| ==> '0' <= r[i] <= '9'
    ensures (|r| == 1) == (n < 10)
    decreases n
  {
    if n < 10 then [DigitChar(n)] else NatToString(n / 10) + [DigitChar(n % 10)]
  }

  /** Different numbers have different decimal renderings. */
  lemma {:induction false} NatToStringInjective(a: nat, b: nat)
    requires NatToString(a) == NatToString(b)
    ensures a == b
    decreases a
  {
    if a >= 10 {
      var sa, sb := NatToString(a), NatToString(b);
      assert sa[..|sa| - 1] == NatToString(a / 10);
      assert sb[..|sb| - 1] == NatToString(b / 10);
      NatToStringInjective(a / 10, b / 10);
      assert DigitChar(a % 10) == sa[|sa| - 1] == DigitChar(b % 10);
    }
  }

  /** The letter-case mapping of Go's `unicode.ToLower` restricted to the code
      points whose lower case is an ASCII letter: `A`-`Z`, and U+0130 (capital
      I with dot above), which Go maps to `i`. */
  function LowerChar(c: char): char {
    if 'A' <= c <= 'Z' then (c as int + 32) as char
    else if c == '\U{130}' then 'i'
    else c
  }

  /** `strings.ToLower` as seen by comparisons with lower-case ASCII words. */
  function Lower(s: string): (r: string)
    ensures |r| == |s|
    ensures forall i :: 0 <= i < |s| ==> r[i] == LowerChar(s[i])
  {
    seq(|s|, i requires 0 <= i < |s| => LowerChar(s[i]))
  }

  /** Lower-casing twice is lower-casing once. */
  lemma LowerIdempotent(s: string)
    ensures Lower(Lower(s)) == Lower(s)
  {
    forall i | 0 <= i < |s|
      ensures Lower(Lower(s))[i] == Lower(s)[i]
    {
      var c := s[i];
      if 'A' <= c <= 'Z' {
        assert 'a' <= LowerChar(c) <= 'z';
      }
    }
  }
}
