/** The quick-session builder: a comma-separated command string becomes a
    configuration with one window named "exec" holding one pane per command,
    each pane split from the one before it. Pane identifiers are derived from
    the command text and made unique with numeric suffixes. */
module Builder {
  import opened Wrappers
  import opened Strings
  import opened Config

  // ---------------------------------------------------------------------
  // Parsing the command string

  /** A parsed command: non-empty, and neither starting nor ending with white
      space. */
  predicate IsCommand(c: string) {
    c != "" && !IsSpace(c[0]) && !IsSpace(c[|c| - 1])
  }

  /** The commands in a list of comma-separated pieces: each piece trimmed,
      the empty ones dropped, the order kept. */
  function CommandsOf(pieces: seq<string>): seq<string>
    decreases |pieces|
  {
    if |pieces| == 0 then []
    else
      var t := TrimSpace(pieces[|pieces| - 1]);
      CommandsOf(pieces[..|pieces| - 1]) + (if t == "" then [] else [t])
  }

  /** Every command is a trimmed, non-empty part of one piece, and no piece
      yields more than one command. */
  lemma {:induction false} CommandsOfShape(pieces: seq<string>, sep: char)
    requires forall i :: 0 <= i < |pieces| ==> sep !in pieces[i]
    ensures |CommandsOf(pieces)| <= |pieces|
    ensures forall i :: 0 <= i < |CommandsOf(pieces)| ==>
      IsCommand(CommandsOf(pieces)[i]) && sep !in CommandsOf(pieces)[i]
    decreases |pieces|
  {
    if |pieces| > 0 {
      var n := |pieces| - 1;
      var init := pieces[..n];
      CommandsOfShape(init, sep);
      var t := TrimSpace(pieces[n]);
      TrimSpaceWithin(pieces[n]);
      var c, ci := CommandsOf(pieces), CommandsOf(init);
      assert c == ci + (if t == "" then [] else [t]);
      forall i | 0 <= i < |c|
        ensures IsCommand(c[i]) && sep !in c[i]
      {
        if i < |ci| {
          assert c[i] == ci[i];
        } else {
          assert c[i] == t;
        }
      }
    }
  }

  /** Pieces that are already commands come back unchanged. */
  lemma {:induction false} CommandsOfCommands(pieces: seq<string>)
    requires forall i :: 0 <= i < |pieces| ==> IsCommand(pieces[i])
    ensures CommandsOf(pieces) == pieces
    decreases |pieces|
  {
    if |pieces| > 0 {
      var n := |pieces| - 1;
      CommandsOfCommands(pieces[..n]);
      var p := pieces[n];
      TrimSpaceClean(p);
      assert pieces[..n] + [p] == pieces;
    }
  }

  /** `ParseCommands`: the comma-separated pieces of `execStr`, trimmed, with
      the empty ones dropped, in their original order. */
  method ParseCommands(execStr: string) returns (commands: seq<string>)
    ensures commands == CommandsOf(Split(execStr, ','))
    ensures execStr == "" ==> commands == []
    ensures forall i :: 0 <= i < |commands| ==> IsCommand(commands[i]) && ',' !in commands[i]
  {
    if execStr == "" {
      CommandsOfEmpty(',');
      return [];
    }
    var parts := Split(execStr, ',');
    commands := TrimmedCommands(parts);
    CommandsOfShape(parts, ',');
  }

  /** The loop of `ParseCommands` over the pieces. */
  method TrimmedCommands(parts: seq<string>) returns (commands: seq<string>)
    ensures commands == CommandsOf(parts)
  {
    commands := [];
    for i := 0 to |parts|
      invariant commands == CommandsOf(parts[..i])
    {
      var cmd := TrimSpace(parts[i]);
      CommandsOfStep(parts, i);
      if cmd != "" {
        commands := commands + [cmd];
      }
    }
    assert parts[..|parts|] == parts;
  }

  /** The commands of a prefix grow by the command of the next piece, if
      any. */
  lemma CommandsOfStep(pieces: seq<string>, i: nat)
    requires i < |pieces|
    ensures var t := TrimSpace(pieces[i]);
      CommandsOf(pieces[..i + 1]) == CommandsOf(pieces[..i]) + (if t == "" then [] else [t])
  {
    assert pieces[..i + 1][..i] == pieces[..i];
  }

  /** The empty command string holds no command. */
  lemma CommandsOfEmpty(sep: char)
    ensures CommandsOf(Split("", sep)) == []
  {
    assert Split("", sep) == [""];
    assert [""][..0] == [];
  }

  /** A command string made of commands separated by bare commas parses back
      into exactly those commands. */
  lemma ParseJoinedCommands(commands: seq<string>)
    requires |commands| >= 1
    requires forall i :: 0 <= i < |commands| ==> IsCommand(commands[i]) && ',' !in commands[i]
    ensures CommandsOf(Split(Join(commands, ','), ',')) == commands
  {
    SplitJoin(commands, ',');
    CommandsOfCommands(commands);
  }

  // ---------------------------------------------------------------------
  // Pane identifiers

  /** The characters a pane identifier keeps: ASCII letters, digits, `-`
      and `_`. */
  predicate IsIdChar(c: char) {
    ('a' <= c <= 'z') || ('A' <= c <= 'Z') || ('0' <= c <= '9') || c == '-' || c == '_'
  }

  /** The command text with every other character removed. */
  function Sanitize(s: string): (r: string)
    ensures |r| <= |s|
    ensures forall i :: 0 <= i < |r| ==> IsIdChar(r[i])
    decreases |s|
  {
    if |s| == 0 then ""
    else (if IsIdChar(s[0]) then [s[0]] else "") + Sanitize(s[1..])
  }

  /** Sanitising works character by character: it keeps exactly the
      identifier characters, in order. */
  lemma {:induction false} SanitizeAppend(a: string, b: string)
    ensures Sanitize(a + b) == Sanitize(a) + Sanitize(b)
    decreases |a|
  {
    if |a| > 0 {
      var head := if IsIdChar(a[0]) then [a[0]] else "";
      assert (a + b)[0] == a[0] && (a + b)[1..] == a[1..] + b;
      assert Sanitize(a + b) == head + Sanitize(a[1..] + b);
      assert Sanitize(a) == head + Sanitize(a[1..]);
      SanitizeAppend(a[1..], b);
      assert head + (Sanitize(a[1..]) + Sanitize(b)) == (head + Sanitize(a[1..])) + Sanitize(b);
    } else {
      assert a + b == b;
    }
  }

  /** Text made only of identifier characters is left as it is. */
  lemma {:induction false} SanitizeClean(s: string)
    requires forall i :: 0 <= i < |s| ==> IsIdChar(s[i])
    ensures Sanitize(s) == s
    decreases |s|
  {
    if |s| > 0 {
      SanitizeClean(s[1..]);
      assert [s[0]] + s[1..] == s;
    }
  }

  /** The base identifier of a command: the sanitised text if it has at most
      nine characters, otherwise its first four and last four characters
      around "..", and "pane" when nothing survives sanitising. */
  function BaseId(cmd: string): (r: string)
    ensures 1 <= |r| <= 10
    ensures Sanitize(cmd) == "" ==> r == "pane"
    ensures 0 < |Sanitize(cmd)| <= 9 ==> r == Sanitize(cmd)
    ensures |Sanitize(cmd)| > 9 ==> var s := Sanitize(cmd);
      |r| == 10 && r[..4] == s[..4] && r[4..6] == ".." && r[6..] == s[|s| - 4..]
  {
    var sanitized := Sanitize(cmd);
    var s := if sanitized == "" then "pane" else sanitized;
    if |s| <= 9 then s else s[..4] + ".." + s[|s| - 4..]
  }

  /** The identifiers tried for a base, in order: the base itself, then
      `base-2`, `base-3`, ... (the counter starts at 1 and is bumped before
      its first use). */
  function IdCandidate(base: string, counter: nat): string
    requires counter >= 1
  {
    if counter == 1 then base else base + "-" + NatToString(counter)
  }

  /** Different counters give different candidates. */
  lemma IdCandidateInjective(base: string, a: nat, b: nat)
    requires a >= 1 && b >= 1
    requires IdCandidate(base, a) == IdCandidate(base, b)
    ensures a == b
  {
    if a != 1 && b != 1 {
      var sa, sb := IdCandidate(base, a), IdCandidate(base, b);
      assert sa[|base| + 1..] == NatToString(a);
      assert sb[|base| + 1..] == NatToString(b);
      NatToStringInjective(a, b);
    }
  }

  /** The candidates tried before `counter`. */
  ghost function TriedIds(base: string, counter: nat): set<string>
    requires counter >= 1
    decreases counter
  {
    if counter == 1 then {} else TriedIds(base, counter - 1) + {IdCandidate(base, counter - 1)}
  }

  /** The candidates before `counter` are `counter - 1` distinct strings, and
      none of them is a later candidate. */
  lemma {:induction false} TriedIdsFacts(base: string, counter: nat, later: nat)
    requires 1 <= counter <= later
    ensures |TriedIds(base, counter)| == counter - 1
    ensures IdCandidate(base, later) !in TriedIds(base, counter)
    decreases counter
  {
    if counter > 1 {
      TriedIdsFacts(base, counter - 1, later);
      TriedIdsFacts(base, counter - 1, counter - 1);
      if IdCandidate(base, later) == IdCandidate(base, counter - 1) {
        IdCandidateInjective(base, later, counter - 1);
      }
    }
  }

  /** Every earlier candidate is among those tried. */
  lemma {:induction false} TriedIdsHas(base: string, j: nat, counter: nat)
    requires 1 <= j < counter
    ensures IdCandidate(base, j) in TriedIds(base, counter)
    decreases counter
  {
    if j < counter - 1 {
      TriedIdsHas(base, j, counter - 1);
    }
  }

  /** `id` is the first candidate for `base` that is not in `used`. */
  ghost predicate IsFirstFree(base: string, used: set<string>, id: string) {
    exists counter: nat :: counter >= 1 && id == IdCandidate(base, counter)
      && id !in used && TriedIds(base, counter) <= used
  }

  /** There is only one first free candidate. */
  lemma FirstFreeUnique(base: string, used: set<string>, a: string, b: string)
    requires IsFirstFree(base, used, a) && IsFirstFree(base, used, b)
    ensures a == b
  {
    var ca: nat :| ca >= 1 && a == IdCandidate(base, ca) && a !in used && TriedIds(base, ca) <= used;
    var cb: nat :| cb >= 1 && b == IdCandidate(base, cb) && b !in used && TriedIds(base, cb) <= used;
    if ca < cb {
      TriedIdsHas(base, ca, cb);
    } else if cb < ca {
      TriedIdsHas(base, cb, ca);
    }
  }

  /** The search of `generatePaneID` from `counter` on, once every earlier
      candidate has been found used. */
  ghost function SearchFrom(base: string, used: set<string>, counter: nat): string
    requires counter >= 1 && TriedIds(base, counter) <= used
    decreases |used - TriedIds(base, counter)|
  {
    var c := IdCandidate(base, counter);
    if c !in used then c
    else
      TriedIdsFacts(base, counter, counter);
      assert used - TriedIds(base, counter + 1) == (used - TriedIds(base, counter)) - {c};
      SearchFrom(base, used, counter + 1)
  }

  /** A used candidate sends the search on to the next counter, and leaves
      fewer unused candidates to look at. */
  lemma SearchStep(base: string, used: set<string>, counter: nat)
    requires counter >= 1 && TriedIds(base, counter) <= used
    requires IdCandidate(base, counter) in used
    ensures TriedIds(base, counter + 1) <= used
    ensures |used - TriedIds(base, counter + 1)| < |used - TriedIds(base, counter)|
    ensures SearchFrom(base, used, counter + 1) == SearchFrom(base, used, counter)
  {
    TriedIdsFacts(base, counter, counter);
    assert used - TriedIds(base, counter + 1)
      == (used - TriedIds(base, counter)) - {IdCandidate(base, counter)};
  }

  /** The identifier `generatePaneID` hands out for a command whose base
      identifier is `base` when `used` are taken. */
  ghost function NextPaneId(base: string, used: set<string>): string {
    SearchFrom(base, used, 1)
  }

  lemma {:induction false} SearchFromFirstFree(base: string, used: set<string>, counter: nat)
    requires counter >= 1 && TriedIds(base, counter) <= used
    ensures IsFirstFree(base, used, SearchFrom(base, used, counter))
    decreases |used - TriedIds(base, counter)|
  {
    var c := IdCandidate(base, counter);
    if c in used {
      TriedIdsFacts(base, counter, counter);
      assert used - TriedIds(base, counter + 1) == (used - TriedIds(base, counter)) - {c};
      SearchFromFirstFree(base, used, counter + 1);
    }
  }

  /** The identifier handed out is free, and every candidate before it was
      taken: it is the first free candidate. */
  lemma NextPaneIdFirstFree(base: string, used: set<string>)
    ensures NextPaneId(base, used) !in used
    ensures IsFirstFree(base, used, NextPaneId(base, used))
  {
    SearchFromFirstFree(base, used, 1);
  }

  /** An unused base identifier is handed out as it is. */
  lemma NextPaneIdFresh(base: string, used: set<string>)
    requires base !in used
    ensures NextPaneId(base, used) == base
  {
  }

  /** The set of identifiers handed out so far: Go's `usedIDs` map, whose
      values are always `true`. */
  class PaneIdRegistry {
    var used: set<string>

    constructor ()
      ensures used == {}
    {
      used := {};
    }

    /** `generatePaneID`: the first candidate of the command's base identifier
        that is not yet used; it is recorded as used. */
    method GeneratePaneId(cmd: string) returns (id: string)
      modifies this
      ensures id == NextPaneId(BaseId(cmd), old(used))
      ensures used == old(used) + {id}
    {
      var baseId := BaseId(cmd);
      var counter: nat := 1;
      id := baseId;
      while id in used
        invariant used == old(used)
        invariant counter >= 1 && id == IdCandidate(baseId, counter)
        invariant TriedIds(baseId, counter) <= used
        invariant SearchFrom(baseId, used, counter) == NextPaneId(baseId, used)
        decreases |used - TriedIds(baseId, counter)|
      {
        SearchStep(baseId, used, counter);
        counter := counter + 1;
        id := IdCandidate(baseId, counter);
      }
      used := used + {id};
    }
  }

  // ---------------------------------------------------------------------
  // The configuration

  /** The distinct strings of a sequence. */
  function ElemSet(s: seq<string>): (r: set<string>)
    decreases |s|
  {
    if s == [] then {} else ElemSet(s[..|s| - 1]) + {s[|s| - 1]}
  }

  lemma ElemSetSnoc(s: seq<string>, x: string)
    ensures ElemSet(s + [x]) == ElemSet(s) + {x}
  {
    assert (s + [x])[..|s|] == s;
  }

  /** Exactly the elements of the sequence are in its set. */
  lemma {:induction false} ElemSetMembers(s: seq<string>)
    ensures forall x :: x in ElemSet(s) <==> x in s
    decreases |s|
  {
    if s != [] {
      var n := |s| - 1;
      ElemSetMembers(s[..n]);
      assert s == s[..n] + [s[n]];
    }
  }

  /** The identifiers successive `generatePaneID` calls on a fresh registry
      hand out for `commands`. */
  ghost function GeneratedIds(commands: seq<string>): (r: seq<string>)
    ensures |r| == |commands|
    decreases |commands|
  {
    if commands == [] then []
    else
      var n := |commands| - 1;
      var prev := GeneratedIds(commands[..n]);
      prev + [NextPaneId(BaseId(commands[n]), ElemSet(prev))]
  }

  /** One more `generatePaneID` call extends both the generated identifiers
      and the set of used ones. */
  lemma GeneratedStep(commands: seq<string>, i: nat, ids: seq<string>, id: string)
    requires i < |commands|
    requires ids == GeneratedIds(commands[..i])
    requires id == NextPaneId(BaseId(commands[i]), ElemSet(ids))
    ensures ids + [id] == GeneratedIds(commands[..i + 1])
    ensures ElemSet(ids + [id]) == ElemSet(ids) + {id}
  {
    GeneratedIdsSnoc(commands, i);
    ElemSetSnoc(ids, id);
  }

  /** No string occurs twice. */
  predicate Distinct(s: seq<string>) {
    forall j, k :: 0 <= j < k < |s| ==> s[j] != s[k]
  }

  /** One more command appends one more identifier. */
  lemma GeneratedIdsSnoc(commands: seq<string>, i: nat)
    requires i < |commands|
    ensures GeneratedIds(commands[..i + 1])
      == GeneratedIds(commands[..i]) + [NextPaneId(BaseId(commands[i]), ElemSet(GeneratedIds(commands[..i])))]
  {
    assert commands[..i + 1][..i] == commands[..i];
  }

  /** Generated identifiers are pairwise distinct. */
  lemma {:induction false} GeneratedIdsDistinct(commands: seq<string>)
    ensures Distinct(GeneratedIds(commands))
    decreases |commands|
  {
    if commands != [] {
      var n := |commands| - 1;
      var prev := GeneratedIds(commands[..n]);
      var ids := GeneratedIds(commands);
      GeneratedIdsDistinct(commands[..n]);
      var next := NextPaneId(BaseId(commands[n]), ElemSet(prev));
      NextPaneIdFirstFree(BaseId(commands[n]), ElemSet(prev));
      assert ids == prev + [next];
      forall j, k | 0 <= j < k < |ids|
        ensures ids[j] != ids[k]
      {
        assert ids[j] == prev[j];
        if k < n {
          assert ids[k] == prev[k];
          assert prev[j] != prev[k];
        } else {
          assert ids[k] == next;
          assert next !in ElemSet(prev);
          ElemSetMembers(prev);
        }
      }
    }
  }

  /** The identifiers of a list of panes. */
  function IdsOf(panes: seq<Pane>): (r: seq<string>)
    ensures |r| == |panes| && forall i :: 0 <= i < |panes| ==> r[i] == panes[i].id
  {
    seq(|panes|, i requires 0 <= i < |panes| => panes[i].id)
  }

  /** The panes of the quick-session window, for `commands` run in `dir`. */
  ghost predicate QuickPanes(panes: seq<Pane>, commands: seq<string>, dir: string) {
    |panes| == |commands|
    && IdsOf(panes) == GeneratedIds(commands)
    && (forall i :: 0 <= i < |panes| ==>
          panes[i].command == commands[i] && panes[i].workingDirectory == dir
          && panes[i].preHooks == [])
    && (|panes| > 0 ==> panes[0].split == "none" && panes[0].splitFrom == "")
    && (forall i :: 1 <= i < |panes| ==>
          panes[i].split == "vertical" && panes[i].splitFrom == panes[i - 1].id)
  }

  /** The whole quick-session configuration. */
  ghost predicate IsQuickConfig(cfg: TmuxConfig, sessionName: string, commands: seq<string>, dir: string) {
    cfg.sessionName == sessionName && cfg.workingDirectory == dir && cfg.terminal == "bash"
    && cfg.autoColor.None? && cfg.showPaneLabels.None? && cfg.defaultLabelColor == ""
    && cfg.rcFile == "" && cfg.logStream == NoLogStream
    && |cfg.windows| == 1 && cfg.windows[0].name == "exec" && cfg.windows[0].color == ""
    && QuickPanes(cfg.windows[0].panes, commands, dir)
  }

  /** In a quick-session window every pane has its own identifier, so every
      `splitFrom` names exactly one pane: the one before it. */
  lemma QuickPanesIdsDistinct(panes: seq<Pane>, commands: seq<string>, dir: string)
    requires QuickPanes(panes, commands, dir)
    ensures forall j, k :: 0 <= j < k < |panes| ==> panes[j].id != panes[k].id
  {
    GeneratedIdsDistinct(commands);
    forall j, k | 0 <= j < k < |panes|
      ensures panes[j].id != panes[k].id
    {
      assert IdsOf(panes)[j] == panes[j].id && IdsOf(panes)[k] == panes[k].id;
    }
  }

  /** Pane `k` of the quick-session window, given the generated identifiers. */
  function QuickPane(ids: seq<string>, commands: seq<string>, dir: string, k: nat): Pane
    requires k < |ids| == |commands|
  {
    if k == 0 then Pane(ids[k], commands[k], "none", "", dir, [])
    else Pane(ids[k], commands[k], "vertical", ids[k - 1], dir, [])
  }

  lemma QuickPanesBuilt(ids: seq<string>, commands: seq<string>, dir: string, panes: seq<Pane>)
    requires ids == GeneratedIds(commands)
    requires |panes| == |ids|
    requires forall k :: 0 <= k < |panes| ==> panes[k] == QuickPane(ids, commands, dir, k)
    ensures QuickPanes(panes, commands, dir)
  {
    forall i | 0 <= i < |panes|
      ensures IdsOf(panes)[i] == ids[i]
      ensures panes[i].command == commands[i] && panes[i].workingDirectory == dir
      ensures panes[i].preHooks == []
    {
      assert panes[i] == QuickPane(ids, commands, dir, i);
    }
    forall i | 1 <= i < |panes|
      ensures panes[i].split == "vertical" && panes[i].splitFrom == panes[i - 1].id
    {
      assert panes[i] == QuickPane(ids, commands, dir, i);
      assert panes[i - 1] == QuickPane(ids, commands, dir, i - 1);
    }
    if |panes| > 0 {
      assert panes[0] == QuickPane(ids, commands, dir, 0);
    }
    assert IdsOf(panes) == ids;
  }

  /** The second pass of `BuildConfigFromCommands`: pane `i` runs command
      `i` in `dir` under identifier `ids[i]`; the first pane is not split and
      every later one splits vertically from the pane before it. */
  method BuildQuickPanes(ids: seq<string>, commands: seq<string>, dir: string) returns (panes: seq<Pane>)
    requires |ids| == |commands|
    ensures |panes| == |commands|
    ensures forall k :: 0 <= k < |panes| ==> panes[k] == QuickPane(ids, commands, dir, k)
  {
    panes := [];
    for i := 0 to |commands|
      invariant |panes| == i
      invariant forall k :: 0 <= k < i ==> panes[k] == QuickPane(ids, commands, dir, k)
    {
      var pane;
      if i == 0 {
        pane := Pane(ids[i], commands[i], "none", "", dir, []);
      } else {
        pane := Pane(ids[i], commands[i], "vertical", ids[i - 1], dir, []);
      }
      panes := panes + [pane];
    }
  }

  /** The first pass of `BuildConfigFromCommands`: one `generatePaneID`
      call per command, in order, on one fresh registry. */
  method GeneratePaneIds(commands: seq<string>) returns (paneIds: seq<string>)
    ensures paneIds == GeneratedIds(commands)
  {
    var registry := new PaneIdRegistry();
    var slots := new string[|commands|];
    ghost var ids: seq<string> := [];
    for i := 0 to |commands|
      invariant ids == slots[..i]
      invariant registry.used == ElemSet(ids)
      invariant ids == GeneratedIds(commands[..i])
    {
      var id := registry.GeneratePaneId(commands[i]);
      slots[i] := id;
      assert slots[..i + 1] == slots[..i] + [id];
      GeneratedStep(commands, i, ids, id);
      ids := ids + [id];
    }
    assert commands[..|commands|] == commands;
    paneIds := slots[..];
  }

  datatype BuildError =
    | NoCommands                   // "no commands provided"
    | WorkingDirectoryUnavailable  // "failed to get current directory"

  /** `BuildConfigFromCommands`, with the result of `os.Getwd` passed in as
      `cwd` (`None` when it fails); it is only consulted when `workingDir` is
      empty. */
  method BuildConfigFromCommands(sessionName: string, commands: seq<string>, workingDir: string,
                                 cwd: Option<string>)
    returns (r: Result<TmuxConfig, BuildError>)
    ensures commands == [] ==> r == Failure(NoCommands)
    ensures commands != [] && workingDir == "" && cwd.None? ==>
      r == Failure(WorkingDirectoryUnavailable)
    ensures commands != [] && (workingDir != "" || cwd.Some?) ==>
      r.Success? && IsQuickConfig(r.value, sessionName, commands,
                                  if workingDir != "" then workingDir else cwd.value)
  {
    if |commands| == 0 {
      return Failure(NoCommands);
    }
    var dir := workingDir;
    if dir == "" {
      if cwd.None? {
        return Failure(WorkingDirectoryUnavailable);
      }
      dir := cwd.value;
    }

    // First pass: generate all pane IDs.
    var paneIds := GeneratePaneIds(commands);

    // Second pass: create the panes with their split references.
    var panes := BuildQuickPanes(paneIds, commands, dir);
    QuickPanesBuilt(paneIds, commands, dir, panes);

    var window := Window("exec", "", panes);
    var cfg := TmuxConfig(sessionName, dir, "bash", None, None, "", "", NoLogStream, [window]);
    return Success(cfg);
  }
}
