/** Pane provisioning for one window: the first pane receives its pre-hooks
    and its command; every later pane is split off the window and then
    receives its own. Every step is a tmux invocation, and the first one that
    fails aborts the rest. */
module Panes {
  import opened Wrappers
  import opened Strings
  import opened Config
  import opened Shell
  import opened TmuxServer

  /** Why provisioning stopped. Errors of the first pane carry index 0. */
  datatype PaneError =
    | PreHookFailed(paneIndex: nat, hook: string) // "failed to execute pre-hook"
    | CommandFailed(paneIndex: nat)               // "failed to send command to pane"
    | SplitFailed                                 // "failed to split pane"

  /** `getPaneWorkingDir`: the pane's own directory, or the fallback when it
      has none. */
  function GetPaneWorkingDir(pane: Pane, fallbackDir: string): (r: string)
    ensures pane.workingDirectory != "" ==> r == pane.workingDirectory
    ensures pane.workingDirectory == "" ==> r == fallbackDir
  {
    if pane.workingDirectory != "" then pane.workingDirectory else fallbackDir
  }

  /** The tmux target of a whole window, `session:window`. */
  function WindowTarget(sessionName: string, windowName: string): string {
    sessionName + ":" + windowName
  }

  /** The tmux target of one pane, `session:window.index`. */
  function PaneTarget(sessionName: string, windowName: string, paneIndex: nat): string {
    WindowTarget(sessionName, windowName) + "." + NatToString(paneIndex)
  }

  /** Typing `keys` into `target` and pressing Enter. */
  function SendKeys(target: string, keys: string): Argv {
    ["send-keys", "-t", target, keys, "Enter"]
  }

  /** The non-empty strings of a list, in order. */
  function NonEmpty(s: seq<string>): (r: seq<string>)
    ensures |r| <= |s|
    ensures forall i :: 0 <= i < |r| ==> r[i] != ""
    ensures forall x :: x in r <==> x in s && x != ""
    decreases |s|
  {
    if s == [] then [] else (if s[0] == "" then [] else [s[0]]) + NonEmpty(s[1..])
  }

  /** The steps of `executePreHooks`: every non-empty hook, in order, typed
      into the pane; a failed send aborts with that hook. */
  function HookSteps(sessionName: string, windowName: string, paneIndex: nat, hooks: seq<string>)
    : seq<Step<PaneError>>
    decreases |hooks|
  {
    if hooks == [] then []
    else
      var first := if hooks[0] == "" then []
        else [Must(SendKeys(PaneTarget(sessionName, windowName, paneIndex), hooks[0]),
                   PreHookFailed(paneIndex, hooks[0]))];
      first + HookSteps(sessionName, windowName, paneIndex, hooks[1..])
  }

  /** The hook steps send exactly the non-empty hooks, in order, each to the
      pane and each failing with its own hook. */
  lemma {:induction false} HookStepsSendNonEmpty(sessionName: string, windowName: string, paneIndex: nat,
                                                 hooks: seq<string>)
    ensures var r, sent := HookSteps(sessionName, windowName, paneIndex, hooks), NonEmpty(hooks);
      |r| == |sent|
      && forall i :: 0 <= i < |r| ==>
           r[i] == Must(SendKeys(PaneTarget(sessionName, windowName, paneIndex), sent[i]),
                        PreHookFailed(paneIndex, sent[i]))
    decreases |hooks|
  {
    if hooks != [] {
      HookStepsSendNonEmpty(sessionName, windowName, paneIndex, hooks[1..]);
    }
  }

  /** `executePreHooks`. */
  method ExecutePreHooks(tmux: Server, sessionName: string, windowName: string, paneIndex: nat,
                         preHooks: seq<string>)
    returns (err: Option<PaneError>)
    modifies tmux
    ensures var o := Exec(tmux.respond, old(tmux.log), HookSteps(sessionName, windowName, paneIndex, preHooks));
      tmux.log == o.log && err == o.err
  {
    ghost var whole := Exec(tmux.respond, tmux.log, HookSteps(sessionName, windowName, paneIndex, preHooks));
    for i := 0 to |preHooks|
      invariant whole == Exec(tmux.respond, tmux.log, HookSteps(sessionName, windowName, paneIndex, preHooks[i..]))
    {
      var hook := preHooks[i];
      assert preHooks[i..][1..] == preHooks[i + 1..];
      if hook == "" {
        assert HookSteps(sessionName, windowName, paneIndex, preHooks[i..])
          == HookSteps(sessionName, windowName, paneIndex, preHooks[i + 1..]);
        continue;
      }
      var argv := SendKeys(PaneTarget(sessionName, windowName, paneIndex), hook);
      ExecMust(tmux.respond, tmux.log, argv, PreHookFailed(paneIndex, hook),
               HookSteps(sessionName, windowName, paneIndex, preHooks[i + 1..]));
      var out := tmux.Invoke(argv);
      if out.None? {
        return Some(PreHookFailed(paneIndex, hook));
      }
    }
    return None;
  }

  /** The steps of `executeCommand`: nothing for an empty command, otherwise
      the command typed into the pane. */
  function CommandSteps(sessionName: string, windowName: string, paneIndex: nat, command: string)
    : seq<Step<PaneError>>
  {
    if command == "" then []
    else [Must(SendKeys(PaneTarget(sessionName, windowName, paneIndex), command), CommandFailed(paneIndex))]
  }

  /** `executeCommand`. */
  method ExecuteCommand(tmux: Server, sessionName: string, windowName: string, paneIndex: nat, command: string)
    returns (err: Option<PaneError>)
    modifies tmux
    ensures var o := Exec(tmux.respond, old(tmux.log), CommandSteps(sessionName, windowName, paneIndex, command));
      tmux.log == o.log && err == o.err
  {
    if command == "" {
      return None;
    }
    var argv := SendKeys(PaneTarget(sessionName, windowName, paneIndex), command);
    ExecMust(tmux.respond, tmux.log, argv, CommandFailed(paneIndex), []);
    var out := tmux.Invoke(argv);
    if out.None? {
      return Some(CommandFailed(paneIndex));
    }
    return None;
  }

  /** The split direction flag: `-h` for "horizontal" or "h" in any letter
      case, `-v` for everything else. */
  function SplitFlag(split: string): (r: string)
    ensures r == "-h" || r == "-v"
    ensures r == "-h" <==> Lower(split) == "horizontal" || Lower(split) == "h"
  {
    var s := Lower(split);
    if s == "horizontal" || s == "h" then "-h"
    else if s == "vertical" || s == "v" then "-v"
    else "-v"
  }

  /** The `split-window` invocation that creates a pane. */
  function SplitArgv(sessionName: string, windowName: string, pane: Pane, workingDir: string, terminal: string)
    : Argv
  {
    var dir := GetPaneWorkingDir(pane, workingDir);
    var base := ["split-window", "-t", WindowTarget(sessionName, windowName), SplitFlag(pane.split)];
    if dir != "" then base + ["-c", dir, GetShellCommand(terminal)]
    else base + [GetShellCommand(terminal)]
  }

  /** A split targets the window, not a pane; it passes `-c` with the pane's
      resolved directory exactly when that is non-empty, and ends with the
      login shell of the terminal. */
  lemma SplitArgvShape(sessionName: string, windowName: string, pane: Pane, workingDir: string, terminal: string)
    ensures var r, dir := SplitArgv(sessionName, windowName, pane, workingDir, terminal), GetPaneWorkingDir(pane, workingDir);
      |r| == (if dir != "" then 7 else 5)
      && r[..4] == ["split-window", "-t", WindowTarget(sessionName, windowName), SplitFlag(pane.split)]
      && (dir != "" ==> r[4..6] == ["-c", dir])
      && r[|r| - 1] == GetShellCommand(terminal)
  {
  }

  /** The steps for pane `k`: a split for every pane but the first, then its
      hooks, then its command. */
  function PaneSteps(sessionName: string, windowName: string, panes: seq<Pane>, k: nat,
                     workingDir: string, terminal: string): seq<Step<PaneError>>
    requires k < |panes|
  {
    (if k == 0 then [] else [Must(SplitArgv(sessionName, windowName, panes[k], workingDir, terminal), SplitFailed)])
    + HookSteps(sessionName, windowName, k, panes[k].preHooks)
    + CommandSteps(sessionName, windowName, k, panes[k].command)
  }

  /** The steps for panes `k` onwards. */
  function PanesFrom(sessionName: string, windowName: string, panes: seq<Pane>, k: nat,
                     workingDir: string, terminal: string): seq<Step<PaneError>>
    requires k <= |panes|
    decreases |panes| - k
  {
    if k == |panes| then []
    else PaneSteps(sessionName, windowName, panes, k, workingDir, terminal)
         + PanesFrom(sessionName, windowName, panes, k + 1, workingDir, terminal)
  }

  /** The steps for panes `k >= 1` onwards: the split of pane `k`, its hooks,
      its command, then the later panes. */
  lemma PanesFromUnfold(sessionName: string, windowName: string, panes: seq<Pane>, k: nat,
                        workingDir: string, terminal: string)
    requires 1 <= k < |panes|
    ensures PanesFrom(sessionName, windowName, panes, k, workingDir, terminal)
      == [Must(SplitArgv(sessionName, windowName, panes[k], workingDir, terminal), SplitFailed)]
         + (HookSteps(sessionName, windowName, k, panes[k].preHooks)
            + CommandSteps(sessionName, windowName, k, panes[k].command)
            + PanesFrom(sessionName, windowName, panes, k + 1, workingDir, terminal))
  {
  }

  /** The steps of `SetupWindowPanes`. */
  function SetupSteps(sessionName: string, windowName: string, panes: seq<Pane>, workingDir: string,
                      terminal: string): seq<Step<PaneError>>
  {
    PanesFrom(sessionName, windowName, panes, 0, workingDir, terminal)
  }

  /** Runs the pre-hooks and then the command of pane `k`, as the front of
      a sequence `whole` whose remaining part is those steps followed by
      `rest`: afterwards either `whole` has stopped here, or `rest` is what
      remains of it. */
  method HooksThenCommand(tmux: Server, sessionName: string, windowName: string, k: nat, pane: Pane,
                          ghost rest: seq<Step<PaneError>>, ghost whole: Outcome<PaneError>)
    returns (err: Option<PaneError>)
    requires whole == Exec(tmux.respond, tmux.log,
      HookSteps(sessionName, windowName, k, pane.preHooks) + CommandSteps(sessionName, windowName, k, pane.command) + rest)
    modifies tmux
    ensures err.Some? ==> whole == Outcome(tmux.log, err)
    ensures err.None? ==> whole == Exec(tmux.respond, tmux.log, rest)
  {
    ghost var hooks := HookSteps(sessionName, windowName, k, pane.preHooks);
    ghost var cmd := CommandSteps(sessionName, windowName, k, pane.command);
    assert hooks + cmd + rest == hooks + (cmd + rest);
    ExecAppend(tmux.respond, tmux.log, hooks, cmd + rest);
    err := ExecutePreHooks(tmux, sessionName, windowName, k, pane.preHooks);
    if err.Some? {
      return;
    }
    ExecAppend(tmux.respond, tmux.log, cmd, rest);
    err := ExecuteCommand(tmux, sessionName, windowName, k, pane.command);
  }

  /** `SetupWindowPanes`, with the terminal name of the configuration. */
  method SetupWindowPanes(tmux: Server, sessionName: string, windowName: string, panes: seq<Pane>,
                          workingDir: string, terminal: string)
    returns (err: Option<PaneError>)
    modifies tmux
    ensures var o := Exec(tmux.respond, old(tmux.log), SetupSteps(sessionName, windowName, panes, workingDir, terminal));
      tmux.log == o.log && err == o.err
  {
    if |panes| == 0 {
      return None;
    }
    ghost var whole := Exec(tmux.respond, tmux.log, SetupSteps(sessionName, windowName, panes, workingDir, terminal));

    // The first pane: hooks and command, no split.
    assert [] + HookSteps(sessionName, windowName, 0, panes[0].preHooks)
      == HookSteps(sessionName, windowName, 0, panes[0].preHooks);
    err := HooksThenCommand(tmux, sessionName, windowName, 0, panes[0],
                            PanesFrom(sessionName, windowName, panes, 1, workingDir, terminal), whole);
    if err.Some? {
      return;
    }

    for k := 1 to |panes|
      invariant whole == Exec(tmux.respond, tmux.log, PanesFrom(sessionName, windowName, panes, k, workingDir, terminal))
    {
      var pane := panes[k];
      var splitArgv := SplitArgv(sessionName, windowName, pane, workingDir, terminal);
      ghost var rest := PanesFrom(sessionName, windowName, panes, k + 1, workingDir, terminal);
      ghost var tail := HookSteps(sessionName, windowName, k, pane.preHooks)
                        + CommandSteps(sessionName, windowName, k, pane.command) + rest;
      PanesFromUnfold(sessionName, windowName, panes, k, workingDir, terminal);
      ExecMust(tmux.respond, tmux.log, splitArgv, SplitFailed, tail);
      var out := tmux.Invoke(splitArgv);
      if out.None? {
        return Some(SplitFailed);
      }
      err := HooksThenCommand(tmux, sessionName, windowName, k, pane, rest, whole);
      if err.Some? {
        return;
      }
    }
    return None;
  }
}

module PanesFacts {
  import opened Wrappers
  import opened Config
  import opened TmuxServer
  import opened Panes

  /** A plan none of whose steps is a `Fallback`. */
  predicate NoFallback<E>(steps: seq<Step<E>>) {
    forall i :: 0 <= i < |steps| ==> !steps[i].Fallback?
  }

  /** The `split-window` invocations of a log, in order. */
  function SplitsIn(argvs: seq<Argv>): seq<Argv>
    decreases |argvs|
  {
    if argvs == [] then []
    else (if |argvs[0]| > 0 && argvs[0][0] == "split-window" then [argvs[0]] else []) + SplitsIn(argvs[1..])
  }

  lemma {:induction false} SplitsInAppend(a: seq<Argv>, b: seq<Argv>)
    ensures SplitsIn(a + b) == SplitsIn(a) + SplitsIn(b)
    decreases |a|
  {
    if a == [] {
      assert a + b == b;
    } else {
      assert (a + b)[0] == a[0] && (a + b)[1..] == a[1..] + b;
      SplitsInAppend(a[1..], b);
    }
  }

  lemma {:induction false} PlannedAppend<E>(a: seq<Step<E>>, b: seq<Step<E>>)
    ensures Planned(a + b) == Planned(a) + Planned(b)
    decreases |a|
  {
    if a == [] {
      assert a + b == b;
    } else {
      assert (a + b)[0] == a[0] && (a + b)[1..] == a[1..] + b;
      PlannedAppend(a[1..], b);
    }
  }

  /** Hooks and commands only type keys: they issue no split, and no fallback. */
  lemma {:induction false} HookStepsTypeOnly(sessionName: string, windowName: string, paneIndex: nat, hooks: seq<string>)
    ensures NoFallback(HookSteps(sessionName, windowName, paneIndex, hooks))
    ensures SplitsIn(Planned(HookSteps(sessionName, windowName, paneIndex, hooks))) == []
    decreases |hooks|
  {
    if hooks != [] {
      var first := if hooks[0] == "" then []
        else [Must(SendKeys(PaneTarget(sessionName, windowName, paneIndex), hooks[0]),
                   PreHookFailed(paneIndex, hooks[0]))];
      var rest := HookSteps(sessionName, windowName, paneIndex, hooks[1..]);
      HookStepsTypeOnly(sessionName, windowName, paneIndex, hooks[1..]);
      PlannedAppend(first, rest);
      SplitsInAppend(Planned(first), Planned(rest));
      assert first + rest == HookSteps(sessionName, windowName, paneIndex, hooks);
      assert forall i :: 0 <= i < |first + rest| ==> (first + rest)[i] in first || (first + rest)[i] in rest;
    }
  }

  /** The split-window invocations of the panes from `k >= 1` on: one per
      pane, in order. */
  function LaterSplits(sessionName: string, windowName: string, panes: seq<Pane>, k: nat,
                       workingDir: string, terminal: string): seq<Argv>
    requires 1 <= k <= |panes|
    decreases |panes| - k
  {
    if k == |panes| then []
    else [SplitArgv(sessionName, windowName, panes[k], workingDir, terminal)]
         + LaterSplits(sessionName, windowName, panes, k + 1, workingDir, terminal)
  }

  /** The plan of one pane has no fallback, and splits exactly when it is
      not the first pane. */
  lemma PaneStepsSplits(sessionName: string, windowName: string, panes: seq<Pane>, k: nat,
                        workingDir: string, terminal: string)
    requires k < |panes|
    ensures var plan := PaneSteps(sessionName, windowName, panes, k, workingDir, terminal);
      NoFallback(plan)
      && SplitsIn(Planned(plan))
         == if k == 0 then [] else [SplitArgv(sessionName, windowName, panes[k], workingDir, terminal)]
  {
    var hooks := HookSteps(sessionName, windowName, k, panes[k].preHooks);
    var cmd := CommandSteps(sessionName, windowName, k, panes[k].command);
    var split: seq<Step<PaneError>> :=
      if k == 0 then [] else [Must(SplitArgv(sessionName, windowName, panes[k], workingDir, terminal), SplitFailed)];
    HookStepsTypeOnly(sessionName, windowName, k, panes[k].preHooks);
    assert SplitsIn(Planned(cmd)) == [];
    PlannedAppend(split + hooks, cmd);
    PlannedAppend(split, hooks);
    SplitsInAppend(Planned(split) + Planned(hooks), Planned(cmd));
    SplitsInAppend(Planned(split), Planned(hooks));
    NoFallbackAppend(split, hooks);
    NoFallbackAppend(split + hooks, cmd);
  }

  lemma NoFallbackAppend<E>(a: seq<Step<E>>, b: seq<Step<E>>)
    requires NoFallback(a) && NoFallback(b)
    ensures NoFallback(a + b)
  {
    forall i | 0 <= i < |a + b|
      ensures !(a + b)[i].Fallback?
    {
      if i >= |a| { assert (a + b)[i] == b[i - |a|]; }
    }
  }

  /** The plan for the panes from `k` on has no fallback, and its split-window
      invocations are those of the panes after the first, from `k` on. */
  lemma {:induction false} PanesFromSplits(sessionName: string, windowName: string, panes: seq<Pane>, k: nat,
                                           workingDir: string, terminal: string)
    requires k <= |panes|
    ensures var plan := PanesFrom(sessionName, windowName, panes, k, workingDir, terminal);
      NoFallback(plan)
      && SplitsIn(Planned(plan))
         == if |panes| == 0 then [] else LaterSplits(sessionName, windowName, panes, if k == 0 then 1 else k, workingDir, terminal)
    decreases |panes| - k
  {
    if k < |panes| {
      var here := PaneSteps(sessionName, windowName, panes, k, workingDir, terminal);
      var rest := PanesFrom(sessionName, windowName, panes, k + 1, workingDir, terminal);
      PanesFromSplits(sessionName, windowName, panes, k + 1, workingDir, terminal);
      PaneStepsSplits(sessionName, windowName, panes, k, workingDir, terminal);
      PlannedAppend(here, rest);
      SplitsInAppend(Planned(here), Planned(rest));
      NoFallbackAppend(here, rest);
    }
  }

  /** When `SetupWindowPanes` succeeds it has issued its whole plan, and
      exactly one split-window per pane after the first, in pane order: the
      first pane is never split. When it fails, it has issued its plan up to
      and including the failing invocation and nothing after it. */
  lemma SetupWindowPanesSplits(respond: Oracle, history: seq<Argv>, sessionName: string, windowName: string,
                               panes: seq<Pane>, workingDir: string, terminal: string)
    ensures var plan := SetupSteps(sessionName, windowName, panes, workingDir, terminal);
      var o := Exec(respond, history, plan);
      (o.err.None? ==>
         o.log == history + Planned(plan)
         && SplitsIn(o.log[|history|..])
            == (if |panes| == 0 then [] else LaterSplits(sessionName, windowName, panes, 1, workingDir, terminal)))
      && (o.err.Some? ==> exists k :: 0 <= k < |plan| && o.log == history + Planned(plan[..k + 1])
                                     && plan[k].Must? && o.err == Some(plan[k].err))
  {
    var plan := SetupSteps(sessionName, windowName, panes, workingDir, terminal);
    PanesFromSplits(sessionName, windowName, panes, 0, workingDir, terminal);
    ExecStopsAtFailure(respond, history, plan);
    var o := Exec(respond, history, plan);
    if o.err.None? {
      assert o.log[|history|..] == Planned(plan);
    }
  }
}
