/** Log streaming: a `logs` window placed first in the session, the panes
    whose output it follows, and the monitor command typed into it. */
module Streaming {
  import opened Wrappers
  import opened Strings
  import opened Config
  import opened Shell
  import opened TmuxServer
  import opened Panes

  /** Why streaming could not be set up. */
  datatype StreamError =
    | CreateWindowFailed // "failed to create streaming window"
    | MoveWindowFailed   // "failed to move streaming window to first position"
    | NoPanesToStream    // "no panes found to stream from"
    | StreamFailed       // "failed to start log streaming"

  /** The name of the streaming window. */
  const LogsWindow := "logs"

  /** The monitor script the streaming command runs. */
  const MonitorScript := "./tmux/stream_monitor.sh"

  /** What the streaming command is when there is nothing to stream. */
  const NothingToStream := "echo 'No panes to stream from'"

  // ---------------------------------------------------------------- selection

  /** `contains`. */
  method Contains(slice: seq<string>, item: string) returns (found: bool)
    ensures found <==> item in slice
  {
    for k := 0 to |slice|
      invariant item !in slice[..k]
    {
      if slice[k] == item {
        return true;
      }
    }
    assert slice[..|slice|] == slice;
    return false;
  }

  /** The configured identifier of the `i`-th pane of a window, `pane<i+1>`
      when it has none. */
  function PaneIdOrDefault(pane: Pane, i: nat): (r: string)
    ensures pane.id != "" ==> r == pane.id
    ensures pane.id == "" ==> r == "pane" + NatToString(i + 1)
  {
    if pane.id != "" then pane.id else "pane" + NatToString(i + 1)
  }

  /** The window filter admits the window: it names it, or it holds `*`. */
  predicate WindowSelected(ls: LogStreamConfig, window: Window) {
    "*" in ls.windows || window.name in ls.windows
  }

  /** The pane filter admits the `i`-th pane: it names its identifier, or it
      holds `*`. */
  predicate PaneSelected(ls: LogStreamConfig, pane: Pane, i: nat) {
    "*" in ls.panes || PaneIdOrDefault(pane, i) in ls.panes
  }

  /** A pane by window position and pane position. */
  datatype PaneRef = PaneRef(window: nat, pane: nat)

  /** The selected panes of window `w` from pane `i` on, then of every later
      window, in window-major order. */
  function SelectionFrom(windows: seq<Window>, ls: LogStreamConfig, w: nat, i: nat): seq<PaneRef>
    requires w <= |windows|
    decreases |windows| - w, if w < |windows| then |windows[w].panes| - i else 0
  {
    if w == |windows| then []
    else if !WindowSelected(ls, windows[w]) || i >= |windows[w].panes| then SelectionFrom(windows, ls, w + 1, 0)
    else (if PaneSelected(ls, windows[w].panes[i], i) then [PaneRef(w, i)] else [])
         + SelectionFrom(windows, ls, w, i + 1)
  }

  /** The panes log streaming follows. */
  function Selection(cfg: TmuxConfig): seq<PaneRef> {
    SelectionFrom(cfg.windows, cfg.logStream, 0, 0)
  }

  /** Pane `r` exists, comes at or after `(w, i)` in window-major order, and
      both filters admit it. */
  predicate InScope(windows: seq<Window>, ls: LogStreamConfig, w: nat, i: nat, r: PaneRef) {
    r.window < |windows| && r.pane < |windows[r.window].panes|
    && (w < r.window || (w == r.window && i <= r.pane))
    && WindowSelected(ls, windows[r.window]) && PaneSelected(ls, windows[r.window].panes[r.pane], r.pane)
  }

  /** A pane is in the selection from `(w, i)` exactly when it is in
      scope. */
  lemma {:induction false} SelectionFromMembers(windows: seq<Window>, ls: LogStreamConfig, w: nat, i: nat, r: PaneRef)
    requires w <= |windows|
    ensures r in SelectionFrom(windows, ls, w, i) <==> InScope(windows, ls, w, i, r)
    decreases |windows| - w, if w < |windows| then |windows[w].panes| - i else 0
  {
    if w < |windows| {
      if !WindowSelected(ls, windows[w]) || i >= |windows[w].panes| {
        assert SelectionFrom(windows, ls, w, i) == SelectionFrom(windows, ls, w + 1, 0);
        InScopeNextWindow(windows, ls, w, i, r);
        SelectionFromMembers(windows, ls, w + 1, 0, r);
      } else {
        SelectionMemberStep(windows, ls, w, i, r);
        InScopeNextPane(windows, ls, w, i, r);
        SelectionFromMembers(windows, ls, w, i + 1, r);
      }
    }
  }

  /** Nothing of window `w` from pane `i` on is in scope: the scope is that
      of the next window. */
  lemma InScopeNextWindow(windows: seq<Window>, ls: LogStreamConfig, w: nat, i: nat, r: PaneRef)
    requires w < |windows| && (!WindowSelected(ls, windows[w]) || i >= |windows[w].panes|)
    ensures InScope(windows, ls, w, i, r) <==> InScope(windows, ls, w + 1, 0, r)
  {
  }

  /** The scope from pane `i` is pane `i`, if admitted, then the scope from
      pane `i + 1`. */
  lemma InScopeNextPane(windows: seq<Window>, ls: LogStreamConfig, w: nat, i: nat, r: PaneRef)
    requires w < |windows| && WindowSelected(ls, windows[w]) && i < |windows[w].panes|
    ensures InScope(windows, ls, w, i, r) <==>
      (r == PaneRef(w, i) && PaneSelected(ls, windows[w].panes[i], i)) || InScope(windows, ls, w, i + 1, r)
  {
  }

  /** One pane of a selected window: it is in the selection exactly when
      it is admitted or in the rest. */
  lemma SelectionMemberStep(windows: seq<Window>, ls: LogStreamConfig, w: nat, i: nat, r: PaneRef)
    requires w < |windows| && WindowSelected(ls, windows[w]) && i < |windows[w].panes|
    ensures r in SelectionFrom(windows, ls, w, i) <==>
      (r == PaneRef(w, i) && PaneSelected(ls, windows[w].panes[i], i)) || r in SelectionFrom(windows, ls, w, i + 1)
  {
    var here: seq<PaneRef> := if PaneSelected(ls, windows[w].panes[i], i) then [PaneRef(w, i)] else [];
    var rest := SelectionFrom(windows, ls, w, i + 1);
    assert SelectionFrom(windows, ls, w, i) == here + rest;
    assert r in here + rest <==> r in here || r in rest;
  }

  /** The selection is ordered window-major then pane-minor, without
      repetitions. */
  predicate Ordered(refs: seq<PaneRef>) {
    forall a, b | 0 <= a < b < |refs| ::
      refs[a].window < refs[b].window || (refs[a].window == refs[b].window && refs[a].pane < refs[b].pane)
  }

  lemma {:induction false} SelectionFromOrdered(windows: seq<Window>, ls: LogStreamConfig, w: nat, i: nat)
    requires w <= |windows|
    ensures Ordered(SelectionFrom(windows, ls, w, i))
    decreases |windows| - w, if w < |windows| then |windows[w].panes| - i else 0
  {
    if w < |windows| {
      if !WindowSelected(ls, windows[w]) || i >= |windows[w].panes| {
        SelectionFromOrdered(windows, ls, w + 1, 0);
      } else {
        var rest := SelectionFrom(windows, ls, w, i + 1);
        SelectionFromOrdered(windows, ls, w, i + 1);
        forall k | 0 <= k < |rest|
          ensures w < rest[k].window || (w == rest[k].window && i < rest[k].pane)
        {
          SelectionFromMembers(windows, ls, w, i + 1, rest[k]);
        }
      }
    }
  }

  /** Membership and order of the whole selection. */
  lemma SelectionIsFiltered(cfg: TmuxConfig, r: PaneRef)
    ensures r in Selection(cfg) <==>
      r.window < |cfg.windows| && r.pane < |cfg.windows[r.window].panes|
      && WindowSelected(cfg.logStream, cfg.windows[r.window])
      && PaneSelected(cfg.logStream, cfg.windows[r.window].panes[r.pane], r.pane)
    ensures Ordered(Selection(cfg))
  {
    SelectionFromMembers(cfg.windows, cfg.logStream, 0, 0, r);
    SelectionFromOrdered(cfg.windows, cfg.logStream, 0, 0);
  }

  // ---------------------------------------------------------------- lookups

  /** The query for the tmux handle (`%N`) of a pane. */
  function DisplayArgv(sessionName: string, windowName: string, paneIndex: nat): Argv {
    ["display-message", "-t", PaneTarget(sessionName, windowName, paneIndex), "-p", "#{pane_id}"]
  }

  /** The command log after the lookups, and the handles they found. */
  datatype Lookups = Lookups(log: seq<Argv>, handles: seq<string>)

  /** `getTargetPanes` from window `w`, pane `i` on: one query per selected
      pane, whose trimmed output is kept when it succeeds; a failed query is
      skipped. */
  function LookupFrom(respond: Oracle, history: seq<Argv>, cfg: TmuxConfig, w: nat, i: nat): Lookups
    requires w <= |cfg.windows|
    decreases |cfg.windows| - w, if w < |cfg.windows| then |cfg.windows[w].panes| - i else 0
  {
    var windows, ls := cfg.windows, cfg.logStream;
    if w == |windows| then Lookups(history, [])
    else if !WindowSelected(ls, windows[w]) || i >= |windows[w].panes| then LookupFrom(respond, history, cfg, w + 1, 0)
    else if !PaneSelected(ls, windows[w].panes[i], i) then LookupFrom(respond, history, cfg, w, i + 1)
    else
      var argv := DisplayArgv(cfg.sessionName, windows[w].name, i);
      var out := respond(history, argv);
      var rest := LookupFrom(respond, history + [argv], cfg, w, i + 1);
      Lookups(rest.log, (if out.Some? then [TrimSpace(out.value)] else []) + rest.handles)
  }

  /** `log` holds the query of each pane of `refs`, one per pane, in order. */
  predicate QueriesOf(cfg: TmuxConfig, refs: seq<PaneRef>, log: seq<Argv>) {
    |log| == |refs|
    && forall k | 0 <= k < |refs| ::
      refs[k].window < |cfg.windows|
      && log[k] == DisplayArgv(cfg.sessionName, cfg.windows[refs[k].window].name, refs[k].pane)
  }

  /** `l` extends `history` with exactly the queries of `sel`, in order, and
      found at most one handle per query. */
  predicate LookupsFit(cfg: TmuxConfig, history: seq<Argv>, l: Lookups, sel: seq<PaneRef>) {
    |history| <= |l.log| && l.log[..|history|] == history
    && QueriesOf(cfg, sel, l.log[|history|..]) && |l.handles| <= |sel|
  }

  /** The lookups from `(w, i)` only append to the log, exactly one query per
      selected pane in selection order, whatever the answers; they find at
      most one handle per query. */
  lemma {:induction false} LookupFromQueries(respond: Oracle, history: seq<Argv>, cfg: TmuxConfig, w: nat, i: nat)
    requires w <= |cfg.windows|
    ensures LookupsFit(cfg, history, LookupFrom(respond, history, cfg, w, i), SelectionFrom(cfg.windows, cfg.logStream, w, i))
    decreases |cfg.windows| - w, if w < |cfg.windows| then |cfg.windows[w].panes| - i else 0
  {
    var windows, ls := cfg.windows, cfg.logStream;
    if w == |windows| {
      assert history[..|history|] == history;
    } else if !WindowSelected(ls, windows[w]) || i >= |windows[w].panes| {
      LookupFromQueries(respond, history, cfg, w + 1, 0);
      assert LookupFrom(respond, history, cfg, w, i) == LookupFrom(respond, history, cfg, w + 1, 0);
      assert SelectionFrom(windows, ls, w, i) == SelectionFrom(windows, ls, w + 1, 0);
    } else if !PaneSelected(ls, windows[w].panes[i], i) {
      LookupFromQueries(respond, history, cfg, w, i + 1);
      LookupFromSkip(respond, history, cfg, w, i);
      assert SelectionFrom(windows, ls, w, i) == [] + SelectionFrom(windows, ls, w, i + 1);
      assert SelectionFrom(windows, ls, w, i) == SelectionFrom(windows, ls, w, i + 1);
    } else {
      var argv := DisplayArgv(cfg.sessionName, windows[w].name, i);
      var out := respond(history, argv);
      LookupFromQueries(respond, history + [argv], cfg, w, i + 1);
      LookupFromQuery(respond, history, cfg, w, i);
      LookupsCons(cfg, history, argv, LookupFrom(respond, history + [argv], cfg, w, i + 1),
                  PaneRef(w, i), SelectionFrom(windows, ls, w, i + 1),
                  if out.Some? then [TrimSpace(out.value)] else []);
    }
  }

  /** One more query, and at most one more handle, in front of lookups that
      fit. */
  lemma LookupsCons(cfg: TmuxConfig, history: seq<Argv>, argv: Argv, rest: Lookups, r: PaneRef, sel: seq<PaneRef>, found: seq<string>)
    requires r.window < |cfg.windows|
    requires argv == DisplayArgv(cfg.sessionName, cfg.windows[r.window].name, r.pane)
    requires LookupsFit(cfg, history + [argv], rest, sel) && |found| <= 1
    ensures LookupsFit(cfg, history, Lookups(rest.log, found + rest.handles), [r] + sel)
  {
    QueriesCons(cfg, history, argv, rest.log, r, sel);
  }

  /** One more query in front of the queries of `rest`. */
  lemma QueriesCons(cfg: TmuxConfig, history: seq<Argv>, argv: Argv, log: seq<Argv>, r: PaneRef, rest: seq<PaneRef>)
    requires r.window < |cfg.windows|
    requires argv == DisplayArgv(cfg.sessionName, cfg.windows[r.window].name, r.pane)
    requires |history + [argv]| <= |log| && log[..|history + [argv]|] == history + [argv]
    requires QueriesOf(cfg, rest, log[|history + [argv]|..])
    ensures |history| <= |log| && log[..|history|] == history
    ensures QueriesOf(cfg, [r] + rest, log[|history|..])
  {
    var h := history + [argv];
    var sel := [r] + rest;
    assert log[..|history|] == log[..|h|][..|history|];
    var q := log[|history|..];
    assert q[0] == log[..|h|][|history|];
    assert q[1..] == log[|h|..];
    forall k | 0 <= k < |sel|
      ensures sel[k].window < |cfg.windows|
      ensures q[k] == DisplayArgv(cfg.sessionName, cfg.windows[sel[k].window].name, sel[k].pane)
    {
      if k > 0 {
        assert sel[k] == rest[k - 1];
        assert q[k] == q[1..][k - 1];
      }
    }
  }

  /** The handles a sequence of queries yields, each asked after the ones
      before it: the trimmed answers of those that succeed, in order. */
  function Answers(respond: Oracle, history: seq<Argv>, qs: seq<Argv>): seq<string>
    decreases |qs|
  {
    if qs == [] then []
    else
      var out := respond(history, qs[0]);
      (if out.Some? then [TrimSpace(out.value)] else []) + Answers(respond, history + [qs[0]], qs[1..])
  }

  /** The handles of the lookups from `(w, i)` are the answers to the
      queries they issue. */
  lemma {:induction false} LookupFromAnswers(respond: Oracle, history: seq<Argv>, cfg: TmuxConfig, w: nat, i: nat)
    requires w <= |cfg.windows|
    ensures var l := LookupFrom(respond, history, cfg, w, i);
      |history| <= |l.log| && l.handles == Answers(respond, history, l.log[|history|..])
    decreases |cfg.windows| - w, if w < |cfg.windows| then |cfg.windows[w].panes| - i else 0
  {
    var windows, ls := cfg.windows, cfg.logStream;
    if w == |windows| {
      assert history[|history|..] == [];
    } else if !WindowSelected(ls, windows[w]) || i >= |windows[w].panes| {
      LookupFromAnswers(respond, history, cfg, w + 1, 0);
      assert LookupFrom(respond, history, cfg, w, i) == LookupFrom(respond, history, cfg, w + 1, 0);
    } else if !PaneSelected(ls, windows[w].panes[i], i) {
      LookupFromAnswers(respond, history, cfg, w, i + 1);
      LookupFromSkip(respond, history, cfg, w, i);
    } else {
      var argv := DisplayArgv(cfg.sessionName, windows[w].name, i);
      var h := history + [argv];
      var rest := LookupFrom(respond, h, cfg, w, i + 1);
      LookupFromAnswers(respond, h, cfg, w, i + 1);
      LookupFromQueries(respond, h, cfg, w, i + 1);
      LookupFromQuery(respond, history, cfg, w, i);
      AnswersCons(respond, history, argv, rest.log);
    }
  }

  /** A log that extends `history + [argv]` answers `argv` first. */
  lemma AnswersCons(respond: Oracle, history: seq<Argv>, argv: Argv, log: seq<Argv>)
    requires |history| + 1 <= |log| && log[..|history| + 1] == history + [argv]
    ensures var out := respond(history, argv);
      Answers(respond, history, log[|history|..])
      == (if out.Some? then [TrimSpace(out.value)] else []) + Answers(respond, history + [argv], log[|history| + 1..])
  {
    var qs := log[|history|..];
    assert qs[0] == log[..|history| + 1][|history|] == argv;
    assert qs[1..] == log[|history| + 1..];
  }

  /** `getTargetPanes`' promise: the lookups issue one query per selected
      pane, in window-then-pane order, and the handles are the trimmed
      answers of the queries that succeed, in the same order. */
  lemma LookupsAnswerSelection(respond: Oracle, history: seq<Argv>, cfg: TmuxConfig)
    ensures var l := LookupFrom(respond, history, cfg, 0, 0);
      |history| <= |l.log| && l.log[..|history|] == history
      && QueriesOf(cfg, Selection(cfg), l.log[|history|..])
      && l.handles == Answers(respond, history, l.log[|history|..])
  {
    LookupFromQueries(respond, history, cfg, 0, 0);
    LookupFromAnswers(respond, history, cfg, 0, 0);
  }

  /** Whether the lookups from `(w, i)` continue with pane `i + 1` or with the
      next window. */
  lemma LookupFromSkip(respond: Oracle, history: seq<Argv>, cfg: TmuxConfig, w: nat, i: nat)
    requires w < |cfg.windows| && i < |cfg.windows[w].panes| && WindowSelected(cfg.logStream, cfg.windows[w])
    requires !PaneSelected(cfg.logStream, cfg.windows[w].panes[i], i)
    ensures LookupFrom(respond, history, cfg, w, i) == LookupFrom(respond, history, cfg, w, i + 1)
  {
  }

  /** The lookup of a selected pane: its query, then the lookups after it. */
  lemma LookupFromQuery(respond: Oracle, history: seq<Argv>, cfg: TmuxConfig, w: nat, i: nat)
    requires w < |cfg.windows| && i < |cfg.windows[w].panes| && WindowSelected(cfg.logStream, cfg.windows[w])
    requires PaneSelected(cfg.logStream, cfg.windows[w].panes[i], i)
    ensures var argv := DisplayArgv(cfg.sessionName, cfg.windows[w].name, i);
      var out := respond(history, argv);
      var rest := LookupFrom(respond, history + [argv], cfg, w, i + 1);
      LookupFrom(respond, history, cfg, w, i)
        == Lookups(rest.log, (if out.Some? then [TrimSpace(out.value)] else []) + rest.handles)
  {
  }

  /** The lookups after the last pane of a window go on with the next
      window. */
  lemma LookupFromNextWindow(respond: Oracle, history: seq<Argv>, cfg: TmuxConfig, w: nat)
    requires w < |cfg.windows|
    ensures LookupFrom(respond, history, cfg, w, |cfg.windows[w].panes|) == LookupFrom(respond, history, cfg, w + 1, 0)
  {
  }

  lemma AppendAssoc<T>(a: seq<T>, b: seq<T>, c: seq<T>)
    ensures a + (b + c) == a + b + c
  {
  }

  /** One iteration of the inner loop of `getTargetPanes`: the handle found
      for pane `i` of a selected window, if any. */
  method PaneLookup(tmux: Server, cfg: TmuxConfig, w: nat, i: nat, streamAllPanes: bool) returns (h: seq<string>)
    requires w < |cfg.windows| && i < |cfg.windows[w].panes| && WindowSelected(cfg.logStream, cfg.windows[w])
    requires streamAllPanes == ("*" in cfg.logStream.panes)
    modifies tmux
    ensures |h| <= 1
    ensures var rest := LookupFrom(tmux.respond, tmux.log, cfg, w, i + 1);
      LookupFrom(tmux.respond, old(tmux.log), cfg, w, i) == Lookups(rest.log, h + rest.handles)
  {
    var window := cfg.windows[w];
    var pane := window.panes[i];
    var paneId := pane.id;
    if paneId == "" {
      paneId := "pane" + NatToString(i + 1);
    }
    var listed := Contains(cfg.logStream.panes, paneId);
    if !streamAllPanes && !listed {
      LookupFromSkip(tmux.respond, tmux.log, cfg, w, i);
      h := [];
      assert h + LookupFrom(tmux.respond, tmux.log, cfg, w, i + 1).handles
          == LookupFrom(tmux.respond, tmux.log, cfg, w, i + 1).handles;
      return;
    }
    LookupFromQuery(tmux.respond, tmux.log, cfg, w, i);
    var out := tmux.Invoke(DisplayArgv(cfg.sessionName, window.name, i));
    h := if out.Some? then [TrimSpace(out.value)] else [];
  }

  /** The inner loop of `getTargetPanes` for a selected window `w`: the
      handles found in it, after which the lookups go on with the next
      window. */
  method WindowLookups(tmux: Server, cfg: TmuxConfig, w: nat, streamAllPanes: bool) returns (found: seq<string>)
    requires w < |cfg.windows| && WindowSelected(cfg.logStream, cfg.windows[w])
    requires streamAllPanes == ("*" in cfg.logStream.panes)
    modifies tmux
    ensures var rest := LookupFrom(tmux.respond, tmux.log, cfg, w + 1, 0);
      LookupFrom(tmux.respond, old(tmux.log), cfg, w, 0) == Lookups(rest.log, found + rest.handles)
  {
    ghost var whole := LookupFrom(tmux.respond, tmux.log, cfg, w, 0);
    found := [];
    for i := 0 to |cfg.windows[w].panes|
      invariant var rest := LookupFrom(tmux.respond, tmux.log, cfg, w, i);
        whole == Lookups(rest.log, found + rest.handles)
    {
      var h := PaneLookup(tmux, cfg, w, i, streamAllPanes);
      AppendAssoc(found, h, LookupFrom(tmux.respond, tmux.log, cfg, w, i + 1).handles);
      found := found + h;
    }
    LookupFromNextWindow(tmux.respond, tmux.log, cfg, w);
  }

  /** `getTargetPanes`: the handles of the selected panes whose lookup
      succeeds, in window-major order. It never fails. */
  method GetTargetPanes(tmux: Server, cfg: TmuxConfig) returns (targetPanes: seq<string>)
    modifies tmux
    ensures var l := LookupFrom(tmux.respond, old(tmux.log), cfg, 0, 0);
      tmux.log == l.log && targetPanes == l.handles
    ensures |old(tmux.log)| <= |tmux.log| && tmux.log[..|old(tmux.log)|] == old(tmux.log)
    ensures QueriesOf(cfg, Selection(cfg), tmux.log[|old(tmux.log)|..])
    ensures targetPanes == Answers(tmux.respond, old(tmux.log), tmux.log[|old(tmux.log)|..])
  {
    ghost var start := tmux.log;
    ghost var whole := LookupFrom(tmux.respond, tmux.log, cfg, 0, 0);
    var ls := cfg.logStream;
    var streamAllWindows := Contains(ls.windows, "*");
    var streamAllPanes := Contains(ls.panes, "*");
    targetPanes := [];
    for w := 0 to |cfg.windows|
      invariant var rest := LookupFrom(tmux.respond, tmux.log, cfg, w, 0);
        whole == Lookups(rest.log, targetPanes + rest.handles)
    {
      var named := Contains(ls.windows, cfg.windows[w].name);
      if !streamAllWindows && !named {
        continue;
      }
      var found := WindowLookups(tmux, cfg, w, streamAllPanes);
      AppendAssoc(targetPanes, found, LookupFrom(tmux.respond, tmux.log, cfg, w + 1, 0).handles);
      targetPanes := targetPanes + found;
    }
    assert targetPanes + [] == targetPanes;
    LookupsAnswerSelection(tmux.respond, start, cfg);
  }

  // ---------------------------------------------------------------- the monitor command

  /** The words of the monitor command line: the script, the session, the
      keyword filter between `--grep` and `--` when there is one, then the
      pane handles. */
  function StreamingArgs(sessionName: string, targetPanes: seq<string>, grepKeywords: seq<string>): seq<string> {
    [MonitorScript, sessionName]
    + (if |grepKeywords| > 0 then ["--grep"] + grepKeywords + ["--"] else [])
    + targetPanes
  }

  /** `buildStreamingCommand`. */
  function BuildStreamingCommand(sessionName: string, targetPanes: seq<string>, grepKeywords: seq<string>): string {
    if |targetPanes| == 0 then NothingToStream
    else Join(StreamingArgs(sessionName, targetPanes, grepKeywords), ' ')
  }

  /** Words without spaces survive the trip through the command line: the
      monitor script receives exactly the session, the filter and the
      handles. */
  lemma BuildStreamingCommandWords(sessionName: string, targetPanes: seq<string>, grepKeywords: seq<string>)
    requires |targetPanes| > 0
    requires ' ' !in sessionName
    requires forall k | 0 <= k < |targetPanes| :: ' ' !in targetPanes[k]
    requires forall k | 0 <= k < |grepKeywords| :: ' ' !in grepKeywords[k]
    ensures Split(BuildStreamingCommand(sessionName, targetPanes, grepKeywords), ' ')
      == StreamingArgs(sessionName, targetPanes, grepKeywords)
  {
    var args := StreamingArgs(sessionName, targetPanes, grepKeywords);
    var n := if |grepKeywords| > 0 then |grepKeywords| + 2 else 0;
    forall k | 0 <= k < |args|
      ensures ' ' !in args[k]
    {
      if k >= 2 + n {
        assert args[k] == targetPanes[k - 2 - n];
      } else if |grepKeywords| > 0 && 3 <= k < 3 + |grepKeywords| {
        assert args[k] == grepKeywords[k - 3];
      }
    }
    SplitJoin(args, ' ');
  }

  /** The `--grep … --` segment is present exactly when there are keywords:
      when neither the session nor a handle is itself `--grep`, the word
      `--grep` occurs in the command line iff the keyword list is
      non-empty. */
  lemma GrepSegmentIffKeywords(sessionName: string, targetPanes: seq<string>, grepKeywords: seq<string>)
    requires "--grep" != sessionName && "--grep" !in targetPanes
    ensures "--grep" in StreamingArgs(sessionName, targetPanes, grepKeywords) <==> |grepKeywords| > 0
  {
    var args := StreamingArgs(sessionName, targetPanes, grepKeywords);
    if |grepKeywords| > 0 {
      assert args[2] == "--grep";
    } else {
      assert args == [MonitorScript, sessionName] + targetPanes;
      assert MonitorScript != "--grep";
    }
  }

  /** Without handles the command only says so. */
  lemma BuildStreamingCommandEmpty(sessionName: string, grepKeywords: seq<string>)
    ensures BuildStreamingCommand(sessionName, [], grepKeywords) == NothingToStream
  {
  }

  // ---------------------------------------------------------------- window and start

  /** The command sequence of `CreateStreamingWindow`: nothing when streaming
      is disabled; otherwise a `logs` window opened in the session directory
      (when there is one) with the login shell, then moved to index 0. */
  function StreamingWindowSteps(cfg: TmuxConfig): seq<Step<StreamError>> {
    if !cfg.logStream.enabled then []
    else
      var dir := cfg.workingDirectory;
      var shell := GetShellCommand(cfg.terminal);
      var newWindow :=
        if dir != "" then ["new-window", "-t", cfg.sessionName, "-n", LogsWindow, "-c", dir, shell]
        else ["new-window", "-t", cfg.sessionName, "-n", LogsWindow, shell];
      [Must(newWindow, CreateWindowFailed),
       Must(["move-window", "-s", cfg.sessionName + ":" + LogsWindow, "-t", cfg.sessionName + ":0"], MoveWindowFailed)]
  }

  /** With streaming disabled nothing is issued. */
  lemma StreamingWindowDisabled(cfg: TmuxConfig)
    requires !cfg.logStream.enabled
    ensures StreamingWindowSteps(cfg) == []
  {
  }

  /** `CreateStreamingWindow`. */
  method CreateStreamingWindow(tmux: Server, cfg: TmuxConfig) returns (err: Option<StreamError>)
    modifies tmux
    ensures var o := Exec(tmux.respond, old(tmux.log), StreamingWindowSteps(cfg));
      tmux.log == o.log && err == o.err
  {
    if !cfg.logStream.enabled {
      return None;
    }
    var sessionName := cfg.sessionName;
    var shellCmd := GetShellCommand(cfg.terminal);
    var workingDir := cfg.workingDirectory;
    var argv: Argv;
    if workingDir != "" {
      argv := ["new-window", "-t", sessionName, "-n", LogsWindow, "-c", workingDir, shellCmd];
    } else {
      argv := ["new-window", "-t", sessionName, "-n", LogsWindow, shellCmd];
    }
    var moveArgv := ["move-window", "-s", sessionName + ":" + LogsWindow, "-t", sessionName + ":0"];
    assert StreamingWindowSteps(cfg) == [Must(argv, CreateWindowFailed)] + [Must(moveArgv, MoveWindowFailed)];
    ExecMust(tmux.respond, tmux.log, argv, CreateWindowFailed, [Must(moveArgv, MoveWindowFailed)]);
    var out := tmux.Invoke(argv);
    if out.None? {
      return Some(CreateWindowFailed);
    }
    ExecMust(tmux.respond, tmux.log, moveArgv, MoveWindowFailed, []);
    out := tmux.Invoke(moveArgv);
    if out.None? {
      return Some(MoveWindowFailed);
    }
    return None;
  }

  /** The command typed into the `logs` window. */
  function StartArgv(cfg: TmuxConfig, targetPanes: seq<string>): Argv {
    SendKeys(cfg.sessionName + ":" + LogsWindow,
             BuildStreamingCommand(cfg.sessionName, targetPanes, cfg.logStream.grep))
  }

  /** `StartLogStreaming`: with streaming disabled nothing is issued; otherwise
      the handles are looked up, and with none found it fails without typing
      anything; otherwise the monitor command is typed into the `logs`
      window. */
  method StartLogStreaming(tmux: Server, cfg: TmuxConfig) returns (err: Option<StreamError>)
    modifies tmux
    ensures !cfg.logStream.enabled ==> tmux.log == old(tmux.log) && err.None?
    ensures cfg.logStream.enabled ==>
      var l := LookupFrom(tmux.respond, old(tmux.log), cfg, 0, 0);
      if |l.handles| == 0 then tmux.log == l.log && err == Some(NoPanesToStream)
      else
        var o := Exec(tmux.respond, l.log, [Must(StartArgv(cfg, l.handles), StreamFailed)]);
        tmux.log == o.log && err == o.err
  {
    if !cfg.logStream.enabled {
      return None;
    }
    var targetPanes := GetTargetPanes(tmux, cfg);
    if |targetPanes| == 0 {
      return Some(NoPanesToStream);
    }
    var streamingCmd := BuildStreamingCommand(cfg.sessionName, targetPanes, cfg.logStream.grep);
    var argv := SendKeys(cfg.sessionName + ":" + LogsWindow, streamingCmd);
    ExecMust(tmux.respond, tmux.log, argv, StreamFailed, []);
    var out := tmux.Invoke(argv);
    if out.None? {
      return Some(StreamFailed);
    }
    return None;
  }

  /** The lookups append only `display-message` queries, one per selected
      pane: in particular they type nothing into any pane. */
  lemma LookupsOnlyQuery(respond: Oracle, history: seq<Argv>, cfg: TmuxConfig)
    ensures var l := LookupFrom(respond, history, cfg, 0, 0);
      |l.log| == |history| + |Selection(cfg)| && l.log[..|history|] == history
      && forall k | |history| <= k < |l.log| :: |l.log[k]| == 5 && l.log[k][0] == "display-message"
  {
    LookupFromQueries(respond, history, cfg, 0, 0);
    var l := LookupFrom(respond, history, cfg, 0, 0);
    var q := l.log[|history|..];
    forall k | |history| <= k < |l.log|
      ensures |l.log[k]| == 5 && l.log[k][0] == "display-message"
    {
      assert l.log[k] == q[k - |history|];
    }
  }
}
