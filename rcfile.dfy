/** The managed shell-alias editor: it adds to and removes from a shell RC file
    the lines `alias NAME='tmux attach -t S' # dolly-managed: S`. The RC file
    is read as lines split at newlines; the regular expressions the editor
    matches lines against are written out as predicates over one line, so
    `.` stands for any character. */
module RcFile {
  import opened Wrappers
  import opened Strings
  import opened RcPatterns

  // ---------------------------------------------------------------- paths

  datatype RcError =
    | HomeUnavailable         // "failed to get home directory"
    | RcFileMissing(path: string) // "RC file not found: <path>. Please create it first"

  /** `expandTilde`, with the home directory lookup (`os.UserHomeDir`) and
      `filepath.Join` as parameters. The home directory is looked up for
      every path starting with `~`, including `~user/...`. */
  function ExpandTilde(path: string, home: Option<string>, join: (string, string) -> string)
    : (r: Result<string, RcError>)
    ensures !HasPrefix(path, "~") ==> r == Success(path)
    ensures HasPrefix(path, "~") && home.None? ==> r == Failure(HomeUnavailable)
    ensures path == "~" && home.Some? ==> r == Success(home.value)
    ensures HasPrefix(path, "~") && path != "~" && home.Some? ==> r == Success(join(home.value, path[1..]))
    ensures r.Failure? ==> r.error == HomeUnavailable
  {
    if !HasPrefix(path, "~") then Success(path)
    else if home.None? then Failure(HomeUnavailable)
    else if path == "~" then Success(home.value)
    else Success(join(home.value, path[1..]))
  }

  // ---------------------------------------------------------------- alias lines

  /** The line `AddShellAlias` writes. */
  function AliasLine(name: string, s: string): string {
    AliasHead(name, s) + "# " + ManagedKeyword + " " + s
  }

  /** The written line up to its marker. */
  function AliasHead(name: string, s: string): string {
    "alias " + name + "='tmux attach -t " + s + "' "
  }

  /** The written line defines the alias `name` and is managed for `s`, by
      both patterns. */
  lemma AliasLineMatches(name: string, s: string)
    ensures DefinesAlias(AliasLine(name, s), name)
    ensures ManagedLine(AliasLine(name, s), s, true) && ManagedLine(AliasLine(name, s), s, false)
  {
    AliasLineDefines(name, s);
    AliasLineManaged(name, s);
    AnchoredIsManaged(AliasLine(name, s), s);
  }

  lemma AliasLineDefines(name: string, s: string)
    ensures DefinesAlias(AliasLine(name, s), name)
  {
    var line := AliasLine(name, s);
    var head := "alias " + name + "=";
    assert line[..|head|] == head;
    DefinitionDefines(line, name);
  }

  /** Any line starting `alias name=` defines `name`. */
  lemma DefinitionDefines(line: string, name: string)
    requires 7 + |name| <= |line| && line[..7 + |name|] == "alias " + name + "="
    ensures DefinesAlias(line, name)
  {
    var head := "alias " + name + "=";
    assert line[0] == head[0] == 'a';
    assert LeadSpaces(line) == 0;
    assert line[0..5] == head[0..5] == "alias" && line[5] == head[5] == ' ';
    assert line[6..][..|name| + 1] == head[6..] == name + "=";
    assert TailAt(line, 6, name + "=", false);
  }

  lemma AliasLineManaged(name: string, s: string)
    ensures ManagedLine(AliasLine(name, s), s, true)
  {
    var line := AliasLine(name, s);
    var head := "alias " + name + "=";
    var q := |AliasHead(name, s)|;
    assert line[..|head|] == head;
    assert line == AliasHead(name, s) + ("# " + ManagedKeyword + " " + s);
    assert line[q..] == "# " + ManagedKeyword + " " + s;
    ManagedByShape(line, name, q, s);
  }

  /** A line starting `alias name=` and ending with the marker for `s` is
      managed for `s`. */
  lemma ManagedByShape(line: string, name: string, q: nat, s: string)
    requires 7 + |name| <= q <= |line| && line[..7 + |name|] == "alias " + name + "="
    requires line[q..] == "# " + ManagedKeyword + " " + s
    ensures ManagedLine(line, s, true)
  {
    var head := "alias " + name + "=";
    var p := 6 + |name|;
    assert line[..0] == [];
    assert line[0..5] == head[0..5] == "alias" && line[5..6] == head[5..6] == " ";
    assert AliasHeadRe(line, 0, 6);
    assert line[p] == head[p] == '=';
    MarkerOfTail(line, q, s);
    assert EqualsMarkerRe(line, p, q, s, true);
    ManagedLineIff(line, s, true);
  }

  /** The marker for `s` at the end of a line matches there. */
  lemma MarkerOfTail(line: string, q: nat, s: string)
    requires q <= |line| && line[q..] == "# " + ManagedKeyword + " " + s
    ensures MarkerRe(line, q, s, true)
  {
    var t := line[q..];
    var a := q + 2;
    var b := a + 15;
    MarkerText(s);
    assert line[q] == t[0];
    assert line[q + 1..a] == [t[1]];
    assert line[a..a + 14] == t[2..16];
    assert line[a + 14..b] == [t[16]];
    assert line[b..] == s && line[b + |s|..] == "";
    assert TailRe(line, b, s, true);
    assert MarkerSplitRe(line, q, a, b, s, true);
  }

  /** Where the parts of the marker for `s` lie. */
  lemma MarkerText(s: string)
    ensures var t := "# " + ManagedKeyword + " " + s;
      |t| == 17 + |s| && t[0] == '#' && t[1] == ' ' && t[2..16] == ManagedKeyword && t[16] == ' ' && t[17..] == s
  {
    var m := "# " + ManagedKeyword + " ";
    assert |ManagedKeyword| == 14;
    assert m[..16] == "# " + ManagedKeyword;
    assert (m + s)[2..16] == m[..16][2..] == ManagedKeyword;
  }

  // ---------------------------------------------------------------- alias names

  /** Some line defines the alias `name`. */
  predicate Taken(lines: seq<string>, name: string) {
    exists l | l in lines :: DefinesAlias(l, name)
  }

  /** Some line carries the (unanchored) managed marker for `s`. */
  predicate ManagedAnywhere(lines: seq<string>, s: string) {
    exists l | l in lines :: ManagedLine(l, s, false)
  }

  /** The `k`-th alias name tried for `base`: `base-dolly`, then
      `base-dolly-1` … `base-dolly-99`. */
  function Candidate(base: string, k: nat): (r: string)
    ensures |r| > |base| && r[..|base|] == base
  {
    if k == 0 then base + "-dolly" else base + "-dolly-" + NatToString(k)
  }

  /** The 100 candidates are pairwise different. */
  lemma CandidateInjective(base: string, k: nat, m: nat)
    requires Candidate(base, k) == Candidate(base, m)
    ensures k == m
  {
    var n := |base| + 7;
    if k != 0 && m != 0 {
      assert Candidate(base, k)[n..] == NatToString(k);
      assert Candidate(base, m)[n..] == NatToString(m);
      NatToStringInjective(k, m);
    }
  }

  /** Which of the 100 candidates some line already defines. */
  function TakenCandidates(lines: seq<string>, base: string): (r: seq<bool>)
    ensures |r| == 100
    ensures forall i | 0 <= i < 100 :: r[i] == Taken(lines, Candidate(base, i))
  {
    seq(100, i requires 0 <= i < 100 => Taken(lines, Candidate(base, i)))
  }

  /** The position of the first candidate from `k` on that is not taken,
      where candidate 99 counts as free whether or not it is. */
  function FirstFree(taken: seq<bool>, k: nat): (m: nat)
    requires |taken| == 100 && k <= 99
    ensures k <= m <= 99
    decreases 99 - k
  {
    if k == 99 || !taken[k] then k else FirstFree(taken, k + 1)
  }

  /** The name `findNextAvailableAlias` settles on. */
  function FirstFreeAlias(lines: seq<string>, base: string): string {
    Candidate(base, FirstFree(TakenCandidates(lines, base), 0))
  }

  /** Every candidate the search passes over from `k` on is taken, and the
      one it stops at is free unless it is the last one. */
  lemma {:induction false} FirstFreeIsFirst(taken: seq<bool>, k: nat)
    requires |taken| == 100 && k <= 99
    ensures var m := FirstFree(taken, k);
      (forall i | k <= i < m :: taken[i]) && (m == 99 || !taken[m])
    decreases 99 - k
  {
    if k < 99 && taken[k] {
      FirstFreeIsFirst(taken, k + 1);
    }
  }

  /** `findNextAvailableAlias` returns the first of `base-dolly`,
      `base-dolly-1` … `base-dolly-99` that no line defines, and
      `base-dolly-99` when every earlier one is defined. */
  lemma FirstFreeAliasIsFirst(lines: seq<string>, base: string) returns (m: nat)
    ensures m <= 99 && FirstFreeAlias(lines, base) == Candidate(base, m)
    ensures forall i | 0 <= i < m :: Taken(lines, Candidate(base, i))
    ensures m == 99 || !Taken(lines, Candidate(base, m))
  {
    var taken := TakenCandidates(lines, base);
    m := FirstFree(taken, 0);
    FirstFreeIsFirst(taken, 0);
  }

  /** Whether some line defines the alias `name`, scanning until the first
      one that does. */
  method AnyDefines(lines: seq<string>, name: string) returns (found: bool)
    ensures found <==> Taken(lines, name)
  {
    found := false;
    for k := 0 to |lines|
      invariant forall m | 0 <= m < k :: !DefinesAlias(lines[m], name)
    {
      if DefinesAlias(lines[k], name) {
        return true;
      }
    }
  }

  /** The last candidate is `base-dolly-99`. */
  lemma LastCandidate(base: string)
    ensures Candidate(base, 99) == base + "-dolly-99"
  {
    assert DigitChar(9) == '9';
    assert NatToString(9) == "9";
    assert NatToString(99) == NatToString(9) + [DigitChar(9)];
  }

  /** `findNextAvailableAlias`. */
  method FindNextAvailableAlias(existingContent: string, baseName: string) returns (name: string)
    ensures name == FirstFreeAlias(Split(existingContent, '\n'), baseName)
  {
    var lines := Split(existingContent, '\n');
    ghost var taken := TakenCandidates(lines, baseName);
    var suffix := baseName + "-dolly";
    var found := AnyDefines(lines, suffix);
    if !found {
      return suffix;
    }
    var i := 1;
    while i < 100
      invariant 1 <= i <= 100
      invariant i < 100 ==> FirstFree(taken, 0) == FirstFree(taken, i)
      invariant i == 100 ==> FirstFree(taken, 0) == 99
    {
      suffix := baseName + "-dolly-" + NatToString(i);
      assert suffix == Candidate(baseName, i);
      found := AnyDefines(lines, suffix);
      if !found {
        return suffix;
      }
      i := i + 1;
    }
    LastCandidate(baseName);
    return baseName + "-dolly-99";
  }

  // ---------------------------------------------------------------- file contents

  /** The lines the removal keeps: those the end-anchored managed pattern for
      `s` does not match, in their original order. */
  function Kept(lines: seq<string>, s: string): seq<string>
    decreases |lines|
  {
    if lines == [] then []
    else
      var last := lines[|lines| - 1];
      Kept(lines[..|lines| - 1], s) + (if ManagedLine(last, s, true) then [] else [last])
  }

  /** The kept lines are exactly the lines that do not match; none of them
      contains a newline when none of the lines does. */
  lemma {:induction false} KeptMembers(lines: seq<string>, s: string)
    ensures |Kept(lines, s)| <= |lines|
    ensures forall x :: x in Kept(lines, s) <==> x in lines && !ManagedLine(x, s, true)
    decreases |lines|
  {
    if lines != [] {
      var init := lines[..|lines| - 1];
      KeptMembers(init, s);
      assert lines == init + [lines[|lines| - 1]];
    }
  }

  /** When no line matches, every line is kept. */
  lemma {:induction false} KeptAll(lines: seq<string>, s: string)
    requires forall l | l in lines :: !ManagedLine(l, s, true)
    ensures Kept(lines, s) == lines
    decreases |lines|
  {
    if lines != [] {
      var init, last := lines[..|lines| - 1], lines[|lines| - 1];
      assert lines == init + [last];
      assert forall l | l in init :: l in lines;
      KeptAll(init, s);
      assert last in lines;
    }
  }

  /** The content `RemoveShellAlias` writes back. */
  function RemoveManaged(content: string, s: string): string {
    Join(Kept(Split(content, '\n'), s), '\n')
  }

  /** If no line carries the exact marker for `s`, removal leaves the content
      as it is. */
  lemma RemoveManagedNoMatch(content: string, s: string)
    requires forall l | l in Split(content, '\n') :: !ManagedLine(l, s, true)
    ensures RemoveManaged(content, s) == content
  {
    var lines := Split(content, '\n');
    KeptAll(lines, s);
    JoinSplit(content, '\n');
  }

  /** After removal, no line carries the exact marker for `s`. */
  lemma RemoveManagedClean(content: string, s: string)
    ensures forall l | l in Split(RemoveManaged(content, s), '\n') :: !ManagedLine(l, s, true)
  {
    var kept := Kept(Split(content, '\n'), s);
    KeptMembers(Split(content, '\n'), s);
    if kept == [] {
      assert Split("", '\n') == [""];
    } else {
      forall i | 0 <= i < |kept|
        ensures '\n' !in kept[i]
      {
        assert kept[i] in Split(content, '\n');
      }
      SplitJoin(kept, '\n');
    }
  }

  /** Removing twice is removing once. */
  lemma RemoveManagedIdempotent(content: string, s: string)
    ensures RemoveManaged(RemoveManaged(content, s), s) == RemoveManaged(content, s)
  {
    RemoveManagedClean(content, s);
    RemoveManagedNoMatch(RemoveManaged(content, s), s);
  }

  /** `content` followed by `line` and a newline, with a newline in between
      only when `content` is non-empty and does not already end with one. */
  function AppendLine(content: string, line: string): string {
    (if |content| > 0 && content[|content| - 1] != '\n' then content + "\n" else content) + line + "\n"
  }

  /** Appending adds exactly one last line and an empty remainder after it,
      and keeps every earlier line of the content. */
  lemma AppendLineSplit(content: string, line: string) returns (prior: seq<string>)
    requires '\n' !in line
    ensures Split(AppendLine(content, line), '\n') == prior + [line, ""]
    ensures forall l | l in prior :: l in Split(content, '\n')
  {
    SplitNoSep(line, '\n');
    assert Split("", '\n') == [""];
    if |content| == 0 {
      prior := [];
      assert AppendLine(content, line) == line + ['\n'] + "";
      SplitAppend(line, "", '\n');
    } else if content[|content| - 1] != '\n' {
      prior := Split(content, '\n');
      assert AppendLine(content, line) == content + ['\n'] + (line + ['\n'] + "");
      SplitAppend(content, line + ['\n'] + "", '\n');
      SplitAppend(line, "", '\n');
    } else {
      var init := content[..|content| - 1];
      prior := Split(init, '\n');
      assert content == init + ['\n'] + "";
      SplitAppend(init, "", '\n');
      assert AppendLine(content, line) == init + ['\n'] + (line + ['\n'] + "");
      SplitAppend(init, line + ['\n'] + "", '\n');
      SplitAppend(line, "", '\n');
    }
  }

  /** The alias name `AddShellAlias` settles on for `content`: the session
      name, unless some line defines that alias and no line carries the
      managed marker for the session; then the first free candidate. */
  function AliasNameFor(content: string, s: string): string {
    var lines := Split(content, '\n');
    if !ManagedAnywhere(lines, s) && Taken(lines, s) then FirstFreeAlias(lines, s) else s
  }

  /** The name differs from the session name exactly when the session's alias
      is defined by a line and no line is managed for it. */
  lemma AliasNameForRenames(content: string, s: string)
    ensures var lines := Split(content, '\n');
      AliasNameFor(content, s) != s <==> !ManagedAnywhere(lines, s) && Taken(lines, s)
  {
  }

  /** What `AddShellAlias` appends to: the content with the old managed
      lines removed when there were any, the content itself otherwise. */
  function AddBase(content: string, s: string): string {
    if ManagedAnywhere(Split(content, '\n'), s) then RemoveManaged(content, s) else content
  }

  /** The content `AddShellAlias` writes. */
  function AddedContent(content: string, s: string): string {
    AppendLine(AddBase(content, s), AliasLine(AliasNameFor(content, s), s))
  }

  /** No line of the content appended to carries the exact marker. */
  lemma AddBaseClean(content: string, s: string)
    ensures forall l | l in Split(AddBase(content, s), '\n') :: !ManagedLine(l, s, true)
  {
    var lines := Split(content, '\n');
    if ManagedAnywhere(lines, s) {
      RemoveManagedClean(content, s);
    } else {
      forall l | l in lines
        ensures !ManagedLine(l, s, true)
      {
        if ManagedLine(l, s, true) {
          AnchoredIsManaged(l, s);
        }
      }
    }
  }

  /** A candidate is a single line when its base is. */
  lemma CandidateOneLine(base: string, k: nat)
    requires '\n' !in base
    ensures '\n' !in Candidate(base, k)
  {
    if k != 0 {
      var d := NatToString(k);
      assert forall c | c in d :: '0' <= c <= '9';
    }
  }

  /** The alias name is a single line when the session name is. */
  lemma AliasNameOneLine(content: string, s: string)
    requires '\n' !in s
    ensures '\n' !in AliasNameFor(content, s)
  {
    var lines := Split(content, '\n');
    if !ManagedAnywhere(lines, s) && Taken(lines, s) {
      CandidateOneLine(s, FirstFree(TakenCandidates(lines, s), 0));
    }
  }


  /** After adding, the alias line is the last line, and it is the only line
      that carries the exact marker for the session. */
  lemma AddedContentOneManaged(content: string, s: string) returns (prior: seq<string>)
    requires '\n' !in s
    ensures Split(AddedContent(content, s), '\n') == prior + [AliasLine(AliasNameFor(content, s), s), ""]
    ensures forall l | l in prior :: !ManagedLine(l, s, true)
    ensures ManagedLine(AliasLine(AliasNameFor(content, s), s), s, true)
  {
    var name := AliasNameFor(content, s);
    AliasNameOneLine(content, s);
    var base := AddBase(content, s);
    AddBaseClean(content, s);
    assert AddedContent(content, s) == AppendLine(base, AliasLine(name, s));
    prior := AppendAliasOneManaged(base, name, s);
  }

  /** Appending the alias line to content without an exact marker for the
      session leaves the alias line as the one line that carries it. */
  lemma AppendAliasOneManaged(base: string, name: string, s: string) returns (prior: seq<string>)
    requires '\n' !in name && '\n' !in s
    requires forall l | l in Split(base, '\n') :: !ManagedLine(l, s, true)
    ensures Split(AppendLine(base, AliasLine(name, s)), '\n') == prior + [AliasLine(name, s), ""]
    ensures forall l | l in prior :: !ManagedLine(l, s, true)
    ensures ManagedLine(AliasLine(name, s), s, true)
  {
    var line := AliasLine(name, s);
    assert '\n' !in line;
    prior := AppendLineSplit(base, line);
    AliasLineMatches(name, s);
  }

  // ---------------------------------------------------------------- the RC file

  /** The file system as the editor sees it: file contents by path. */
  class FileStore {
    var files: map<string, string>

    constructor (files: map<string, string>)
      ensures this.files == files
    {
      this.files := files;
    }
  }

  /** `RemoveShellAlias`: a missing file is left alone without error;
      otherwise the lines with the exact marker for the session are
      dropped. */
  method RemoveShellAlias(fs: FileStore, rcFilePath: string, sessionName: string,
                          home: Option<string>, join: (string, string) -> string)
    returns (err: Option<RcError>)
    modifies fs
    ensures var e := ExpandTilde(rcFilePath, home, join);
      (e.Failure? ==> err == Some(e.error) && fs.files == old(fs.files))
      && (e.Success? && e.value !in old(fs.files) ==> err.None? && fs.files == old(fs.files))
      && (e.Success? && e.value in old(fs.files) ==>
            err.None? && fs.files == old(fs.files)[e.value := RemoveManaged(old(fs.files)[e.value], sessionName)])
  {
    var expanded := ExpandTilde(rcFilePath, home, join);
    if expanded.Failure? {
      return Some(expanded.error);
    }
    var path := expanded.value;
    if path !in fs.files {
      return None;
    }
    var lines := Split(fs.files[path], '\n');
    var newLines: seq<string> := [];
    for k := 0 to |lines|
      invariant newLines == Kept(lines[..k], sessionName)
    {
      assert lines[..k + 1][..k] == lines[..k];
      if !ManagedLine(lines[k], sessionName, true) {
        newLines := newLines + [lines[k]];
      }
    }
    assert lines[..|lines|] == lines;
    fs.files := fs.files[path := Join(newLines, '\n')];
    return None;
  }

  /** The scan of `AddShellAlias`: whether a line carries the managed marker
      for the session, stopping at the first one, and whether a line before
      it defines the session's alias. */
  method ScanAliases(lines: seq<string>, sessionName: string) returns (hasConflict: bool, isDollyManaged: bool)
    ensures isDollyManaged == ManagedAnywhere(lines, sessionName)
    ensures !isDollyManaged ==> (hasConflict <==> Taken(lines, sessionName))
  {
    hasConflict, isDollyManaged := false, false;
    var k := 0;
    while k < |lines|
      invariant 0 <= k <= |lines|
      invariant forall m | 0 <= m < k :: !ManagedLine(lines[m], sessionName, false)
      invariant hasConflict <==> exists m | 0 <= m < k :: DefinesAlias(lines[m], sessionName)
    {
      if ManagedLine(lines[k], sessionName, false) {
        isDollyManaged := true;
        break;
      }
      if DefinesAlias(lines[k], sessionName) {
        hasConflict := true;
      }
      k := k + 1;
    }
  }

  /** Writes `content` with `aliasLine` appended to `path`, adding a
      separating newline only when `content` is non-empty and does not end
      with one. */
  method AppendAliasLine(fs: FileStore, path: string, content: string, aliasLine: string)
    modifies fs
    ensures fs.files == old(fs.files)[path := AppendLine(content, aliasLine)]
  {
    var newContent := content;
    if |newContent| > 0 && newContent[|newContent| - 1] != '\n' {
      newContent := newContent + "\n";
    }
    newContent := newContent + aliasLine + "\n";
    fs.files := fs.files[path := newContent];
  }

  /** `AddShellAlias`: fails without writing when the path cannot be expanded
      or the file does not exist; otherwise writes `AddedContent` and returns
      the alias name it used. */
  method AddShellAlias(fs: FileStore, rcFilePath: string, sessionName: string,
                       home: Option<string>, join: (string, string) -> string)
    returns (r: Result<string, RcError>)
    modifies fs
    ensures var e := ExpandTilde(rcFilePath, home, join);
      (e.Failure? ==> r == Failure(e.error) && fs.files == old(fs.files))
      && (e.Success? && e.value !in old(fs.files) ==>
            r == Failure(RcFileMissing(e.value)) && fs.files == old(fs.files))
      && (e.Success? && e.value in old(fs.files) ==>
            var content := old(fs.files)[e.value];
            r == Success(AliasNameFor(content, sessionName))
            && fs.files == old(fs.files)[e.value := AddedContent(content, sessionName)])
  {
    var expanded := ExpandTilde(rcFilePath, home, join);
    if expanded.Failure? {
      return Failure(expanded.error);
    }
    var path := expanded.value;
    if path !in fs.files {
      return Failure(RcFileMissing(path));
    }
    var existingContent := fs.files[path];
    ghost var content := existingContent;
    var aliasName := sessionName;
    var lines := Split(existingContent, '\n');
    var hasConflict, isDollyManaged := ScanAliases(lines, sessionName);
    if hasConflict && !isDollyManaged {
      aliasName := FindNextAvailableAlias(existingContent, sessionName);
    }

    if isDollyManaged {
      var err := RemoveShellAlias(fs, rcFilePath, sessionName, home, join);
      assert err.None?;
      existingContent := fs.files[path];
    }
    assert aliasName == AliasNameFor(content, sessionName);
    assert existingContent == AddBase(content, sessionName);

    AppendAliasLine(fs, path, existingContent, AliasLine(aliasName, sessionName));
    return Success(aliasName);
  }
}
