/** Creating and terminating a session: the per-window commands (panes, pane
    border labels, tab colours), the window order, and the shell alias kept
    in the rc file. */
module Session {
  import opened Wrappers
  import opened Strings
  import opened Config
  import opened Shell
  import opened TmuxServer
  import opened Panes
  import opened RcFile

  // ---------------------------------------------------------------- settings with defaults

  /** `shouldShowPaneLabelsGlobal`: labels are on unless switched off. */
  function ShouldShowPaneLabelsGlobal(cfg: TmuxConfig): (r: bool)
    ensures r <==> cfg.showPaneLabels != Some(false)
  {
    if cfg.showPaneLabels.None? then true else cfg.showPaneLabels.value
  }

  /** `getDefaultLabelColor`: the configured label colour, blue when there is
      none. */
  function GetDefaultLabelColor(cfg: TmuxConfig): (r: string)
    ensures r != ""
    ensures cfg.defaultLabelColor != "" ==> r == cfg.defaultLabelColor
  {
    if cfg.defaultLabelColor != "" then cfg.defaultLabelColor else "blue"
  }

  /** `shouldUseAutoColor`: automatic tab colours are on unless switched
      off. */
  function ShouldUseAutoColor(cfg: TmuxConfig): (r: bool)
    ensures r <==> cfg.autoColor != Some(false)
  {
    if cfg.autoColor.None? then true else cfg.autoColor.value
  }

  /** The fifteen colours automatic tab colouring cycles through. */
  const DefaultColorPalette: seq<string> := [
    "green", "blue", "red", "yellow", "cyan", "magenta", "white", "black",
    "brightgreen", "brightblue", "brightred", "brightyellow", "brightcyan", "brightmagenta", "brightwhite"
  ]

  /** `getAutoColor`: the palette entry of a window position, cyclically. */
  function GetAutoColor(windowIndex: nat): (r: string)
    ensures r in DefaultColorPalette && r != ""
    ensures windowIndex < 15 ==> r == DefaultColorPalette[windowIndex]
  {
    var k := windowIndex % 15;
    assert windowIndex < 15 ==> k == windowIndex;
    DefaultColorPalette[k]
  }

  /** The colours repeat every fifteen windows: the first window is green,
      the fifteenth bright white, the sixteenth green again. */
  lemma {:induction false} AutoColorPeriodic(i: nat)
    ensures GetAutoColor(i + 15) == GetAutoColor(i)
    ensures GetAutoColor(i) == DefaultColorPalette[i % 15]
    ensures GetAutoColor(0) == "green" && GetAutoColor(14) == "brightwhite" && GetAutoColor(15) == "green"
  {
    assert (i + 15) % 15 == i % 15;
  }

  /** No colour occurs twice in the palette. */
  lemma PaletteDistinct()
    ensures |DefaultColorPalette| == 15
    ensures forall a, b | 0 <= a < b < 15 :: DefaultColorPalette[a] != DefaultColorPalette[b]
  {
    var p := DefaultColorPalette;
    forall a, b | 0 <= a < b < 15
      ensures p[a] != p[b]
    {
    }
  }

  /** Two windows get the same automatic colour exactly when their positions
      agree modulo fifteen: fifteen consecutive windows all differ. */
  lemma AutoColorCycle(i: nat, j: nat)
    ensures GetAutoColor(i) == GetAutoColor(j) <==> i % 15 == j % 15
  {
    PaletteDistinct();
    if i % 15 < j % 15 {
      assert DefaultColorPalette[i % 15] != DefaultColorPalette[j % 15];
    } else if j % 15 < i % 15 {
      assert DefaultColorPalette[j % 15] != DefaultColorPalette[i % 15];
    }
  }

  /** The tab colour of the window at position `index`: its own colour, or
      the automatic one when it has none and automatic colouring is on. */
  function WindowColor(cfg: TmuxConfig, index: nat): (r: string)
    requires index < |cfg.windows|
    ensures cfg.windows[index].color != "" ==> r == cfg.windows[index].color
    ensures r == "" <==> cfg.windows[index].color == "" && !ShouldUseAutoColor(cfg)
    ensures cfg.windows[index].color == "" && ShouldUseAutoColor(cfg) ==> r == GetAutoColor(index)
  {
    var color := cfg.windows[index].color;
    if color == "" && ShouldUseAutoColor(cfg) then GetAutoColor(index) else color
  }

  /** The directory a window opens in: its first pane's own directory, or the
      session directory. */
  function WindowWorkingDir(cfg: TmuxConfig, window: Window): (r: string)
    ensures |window.panes| > 0 && window.panes[0].workingDirectory != "" ==> r == window.panes[0].workingDirectory
    ensures (|window.panes| == 0 || window.panes[0].workingDirectory == "") ==> r == cfg.workingDirectory
  {
    if |window.panes| > 0 then GetPaneWorkingDir(window.panes[0], cfg.workingDirectory) else cfg.workingDirectory
  }

  // ---------------------------------------------------------------- pane borders

  /** Why the pane labels of a window could not be set. */
  datatype BorderError =
    | BorderStatusFailed(window: string) // "failed to enable pane border status for window"
    | BorderFormatFailed(window: string) // "failed to set pane border format for window"

  /** The label drawn above each pane: its title on the label colour. */
  function BorderFormat(cfg: TmuxConfig): string {
    "#[bg=" + GetDefaultLabelColor(cfg) + ",fg=white,bold] #{pane_title} #[default]"
  }

  /** The commands of `enablePaneBordersForWindow`. */
  function BorderSteps(cfg: TmuxConfig, windowName: string): seq<Step<BorderError>> {
    var target := WindowTarget(cfg.sessionName, windowName);
    [Must(["set-window-option", "-t", target, "pane-border-status", "top"], BorderStatusFailed(windowName)),
     Must(["set-window-option", "-t", target, "pane-border-format", BorderFormat(cfg)], BorderFormatFailed(windowName))]
  }

  /** `enablePaneBordersForWindow`. */
  method EnablePaneBordersForWindow(tmux: Server, cfg: TmuxConfig, windowName: string)
    returns (err: Option<BorderError>)
    modifies tmux
    ensures var o := Exec(tmux.respond, old(tmux.log), BorderSteps(cfg, windowName));
      tmux.log == o.log && err == o.err
  {
    var windowTarget := WindowTarget(cfg.sessionName, windowName);
    var statusArgv := ["set-window-option", "-t", windowTarget, "pane-border-status", "top"];
    var simpleFormat := "#[bg=" + GetDefaultLabelColor(cfg) + ",fg=white,bold] #{pane_title} #[default]";
    var formatArgv := ["set-window-option", "-t", windowTarget, "pane-border-format", simpleFormat];
    assert BorderSteps(cfg, windowName)
        == [Must(statusArgv, BorderStatusFailed(windowName))] + [Must(formatArgv, BorderFormatFailed(windowName))];
    ExecMust(tmux.respond, tmux.log, statusArgv, BorderStatusFailed(windowName), [Must(formatArgv, BorderFormatFailed(windowName))]);
    var out := tmux.Invoke(statusArgv);
    if out.None? {
      return Some(BorderStatusFailed(windowName));
    }
    ExecMust(tmux.respond, tmux.log, formatArgv, BorderFormatFailed(windowName), []);
    out := tmux.Invoke(formatArgv);
    if out.None? {
      return Some(BorderFormatFailed(windowName));
    }
    return None;
  }

  // ---------------------------------------------------------------- tab colours

  /** Why a window's tab colour could not be set. */
  datatype ColorError = TabColorFailed(color: string, window: string) // "failed to set window tab color"

  /** The commands of `setWindowColor`: nothing without a colour; otherwise
      the tab style, then the selected-tab style in the bright variant, or in
      the plain colour when tmux refuses the bright one. */
  function ColorSteps(sessionName: string, windowName: string, color: string): (r: seq<Step<ColorError>>)
    ensures |r| == 0 <==> color == ""
    ensures color != "" ==> |r| == 2 && r[0].Must? && r[1].Fallback?
  {
    if color == "" then []
    else
      var target := WindowTarget(sessionName, windowName);
      [Must(["set-window-option", "-t", target, "window-status-style", "bg=" + color + ",fg=black"],
            TabColorFailed(color, windowName)),
       Fallback(["set-window-option", "-t", target, "window-status-current-style", "bg=bright" + color + ",fg=black,bold"],
                ["set-window-option", "-t", target, "window-status-current-style", "bg=" + color + ",fg=white,bold"])]
  }

  /** Setting a colour fails only when the tab style is refused; the
      selected-tab style never makes it fail. */
  lemma ColorFailsOnlyOnTabStyle(respond: Oracle, history: seq<Argv>, sessionName: string, windowName: string, color: string)
    ensures var o := Exec(respond, history, ColorSteps(sessionName, windowName, color));
      o.err.Some? <==> color != "" && respond(history, ColorSteps(sessionName, windowName, color)[0].argv).None?
  {
    var steps := ColorSteps(sessionName, windowName, color);
    if color != "" {
      assert steps == [steps[0]] + [steps[1]];
      ExecMust(respond, history, steps[0].argv, steps[0].err, [steps[1]]);
      ExecFallback<ColorError>(respond, history + [steps[0].argv], steps[1].argv, steps[1].alt, []);
    }
  }

  /** `setWindowColor`. */
  method SetWindowColor(tmux: Server, sessionName: string, windowName: string, color: string)
    returns (err: Option<ColorError>)
    modifies tmux
    ensures var o := Exec(tmux.respond, old(tmux.log), ColorSteps(sessionName, windowName, color));
      tmux.log == o.log && err == o.err
  {
    if color == "" {
      return None;
    }
    var windowTarget := WindowTarget(sessionName, windowName);
    var styleArgv := ["set-window-option", "-t", windowTarget, "window-status-style", "bg=" + color + ",fg=black"];
    var brightArgv := ["set-window-option", "-t", windowTarget, "window-status-current-style", "bg=bright" + color + ",fg=black,bold"];
    var plainArgv := ["set-window-option", "-t", windowTarget, "window-status-current-style", "bg=" + color + ",fg=white,bold"];
    assert ColorSteps(sessionName, windowName, color)
        == [Must(styleArgv, TabColorFailed(color, windowName))] + [Fallback(brightArgv, plainArgv)];
    ExecMust(tmux.respond, tmux.log, styleArgv, TabColorFailed(color, windowName), [Fallback(brightArgv, plainArgv)]);
    var out := tmux.Invoke(styleArgv);
    if out.None? {
      return Some(TabColorFailed(color, windowName));
    }
    ExecFallback<ColorError>(tmux.respond, tmux.log, brightArgv, plainArgv, []);
    out := tmux.Invoke(brightArgv);
    if out.None? {
      out := tmux.Invoke(plainArgv);
    }
    return None;
  }

  // ---------------------------------------------------------------- windows

  /** Which window an error is about: the first one, or a later one by
      name. */
  datatype WindowRef = FirstWindow | LaterWindow(name: string)

  /** Why a session could not be created or terminated. */
  datatype SessionError =
    | NoWindows                                         // "no windows defined in config"
    | CreateSessionFailed                               // "failed to create tmux session"
    | CreateWindowFailed(name: string)                  // "failed to create window"
    | PanesFailed(window: WindowRef, paneCause: PaneError)    // "failed to setup panes for ..."
    | BordersFailed(window: WindowRef, borderCause: BorderError) // "failed to enable pane borders for ..."
    | ColorFailed(window: WindowRef, colorCause: ColorError)    // "failed to set color for ..."
    | SelectFirstWindowFailed                           // "failed to select first window"
    | TerminateFailed(sessionName: string)              // "failed to terminate tmux session"

  function RefOf(cfg: TmuxConfig, index: nat): WindowRef
    requires index < |cfg.windows|
  {
    if index == 0 then FirstWindow else LaterWindow(cfg.windows[index].name)
  }

  function PanesErr(ref: WindowRef): PaneError -> SessionError {
    e => PanesFailed(ref, e)
  }

  function BordersErr(ref: WindowRef): BorderError -> SessionError {
    e => BordersFailed(ref, e)
  }

  function ColorErr(ref: WindowRef): ColorError -> SessionError {
    e => ColorFailed(ref, e)
  }

  /** The invocation that opens the window at position `index`: the session
      itself for the first window, a new window of the session for the
      others; `-c` only when there is a directory. */
  function CreateStep(cfg: TmuxConfig, index: nat): Step<SessionError>
    requires index < |cfg.windows|
  {
    var window := cfg.windows[index];
    var dir := WindowWorkingDir(cfg, window);
    var shell := GetShellCommand(cfg.terminal);
    if index == 0 then
      Must(if dir != "" then ["new-session", "-d", "-s", cfg.sessionName, "-n", window.name, "-c", dir, shell]
           else ["new-session", "-d", "-s", cfg.sessionName, "-n", window.name, shell],
           CreateSessionFailed)
    else
      Must(if dir != "" then ["new-window", "-t", cfg.sessionName + ":", "-n", window.name, "-c", dir, shell]
           else ["new-window", "-t", cfg.sessionName + ":", "-n", window.name, shell],
           CreateWindowFailed(window.name))
  }

  /** The window opens in its resolved directory, passed with `-c` exactly
      when it is non-empty, and runs the login shell of the configured
      terminal. */
  lemma CreateStepWorkingDir(cfg: TmuxConfig, index: nat)
    requires index < |cfg.windows|
    requires cfg.sessionName != "-c" && cfg.windows[index].name != "-c"
    ensures var argv := CreateStep(cfg, index).argv;
      var dir := WindowWorkingDir(cfg, cfg.windows[index]);
      ("-c" in argv <==> dir != "")
      && (dir != "" ==> argv[|argv| - 3] == "-c" && argv[|argv| - 2] == dir)
      && argv[|argv| - 1] == GetShellCommand(cfg.terminal)
  {
    var shell := GetShellCommand(cfg.terminal);
    assert shell[|shell| - 1] == " -l"[2];
    assert shell != "-c";
    assert cfg.sessionName + ":" != "-c" by {
      var t := cfg.sessionName + ":";
      assert t[|t| - 1] == ':';
    }
  }

  /** The panes of the window, with their errors attributed to it. */
  function PaneStepsOf(cfg: TmuxConfig, index: nat): seq<Step<SessionError>>
    requires index < |cfg.windows|
  {
    var window := cfg.windows[index];
    MapErr(SetupSteps(cfg.sessionName, window.name, window.panes, cfg.workingDirectory, cfg.terminal),
           PanesErr(RefOf(cfg, index)))
  }

  /** The pane labels of the window, when labels are on. */
  function BorderStepsOf(cfg: TmuxConfig, index: nat): seq<Step<SessionError>>
    requires index < |cfg.windows|
  {
    if ShouldShowPaneLabelsGlobal(cfg) then MapErr(BorderSteps(cfg, cfg.windows[index].name), BordersErr(RefOf(cfg, index)))
    else []
  }

  /** The tab colour of the window. */
  function ColorStepsOf(cfg: TmuxConfig, index: nat): seq<Step<SessionError>>
    requires index < |cfg.windows|
  {
    MapErr(ColorSteps(cfg.sessionName, cfg.windows[index].name, WindowColor(cfg, index)), ColorErr(RefOf(cfg, index)))
  }

  /** Selecting pane 0 of a later window by its tmux index (`base-index` is
      1, so position `index` is tmux window `index + 1`). */
  function SelectPaneArgv(sessionName: string, index: nat): Argv {
    ["select-pane", "-t", sessionName + ":" + NatToString(index + 1) + ".0"]
  }

  function SelectStepsOf(cfg: TmuxConfig, index: nat): seq<Step<SessionError>> {
    if index == 0 then [] else [Try(SelectPaneArgv(cfg.sessionName, index))]
  }

  /** Everything done for the window at position `index`, in order. */
  function WindowSteps(cfg: TmuxConfig, index: nat): seq<Step<SessionError>>
    requires index < |cfg.windows|
  {
    [CreateStep(cfg, index)]
    + (PaneStepsOf(cfg, index)
    + (BorderStepsOf(cfg, index)
    + (ColorStepsOf(cfg, index)
    + SelectStepsOf(cfg, index))))
  }

  /** The panes of the window at position `index`, with their errors
      attributed to it. */
  method WindowPanes(tmux: Server, cfg: TmuxConfig, index: nat) returns (err: Option<SessionError>)
    requires index < |cfg.windows|
    modifies tmux
    ensures var o := Exec(tmux.respond, old(tmux.log), PaneStepsOf(cfg, index));
      tmux.log == o.log && err == o.err
  {
    var window := cfg.windows[index];
    ExecMapErr(tmux.respond, tmux.log,
               SetupSteps(cfg.sessionName, window.name, window.panes, cfg.workingDirectory, cfg.terminal),
               PanesErr(RefOf(cfg, index)));
    var paneErr := SetupWindowPanes(tmux, cfg.sessionName, window.name, window.panes, cfg.workingDirectory, cfg.terminal);
    if paneErr.Some? {
      return Some(PanesFailed(RefOf(cfg, index), paneErr.value));
    }
    return None;
  }

  /** The pane labels of the window at position `index`, when labels are
      on. */
  method WindowBorders(tmux: Server, cfg: TmuxConfig, index: nat) returns (err: Option<SessionError>)
    requires index < |cfg.windows|
    modifies tmux
    ensures var o := Exec(tmux.respond, old(tmux.log), BorderStepsOf(cfg, index));
      tmux.log == o.log && err == o.err
  {
    if !ShouldShowPaneLabelsGlobal(cfg) {
      return None;
    }
    var name := cfg.windows[index].name;
    ExecMapErr(tmux.respond, tmux.log, BorderSteps(cfg, name), BordersErr(RefOf(cfg, index)));
    var borderErr := EnablePaneBordersForWindow(tmux, cfg, name);
    if borderErr.Some? {
      return Some(BordersFailed(RefOf(cfg, index), borderErr.value));
    }
    return None;
  }

  /** The tab colour of the window at position `index`, then, for a later
      window, the selection of its first pane. */
  method WindowColorAndPane(tmux: Server, cfg: TmuxConfig, index: nat) returns (err: Option<SessionError>)
    requires index < |cfg.windows|
    modifies tmux
    ensures var o := Exec(tmux.respond, old(tmux.log), ColorStepsOf(cfg, index) + SelectStepsOf(cfg, index));
      tmux.log == o.log && err == o.err
  {
    var window := cfg.windows[index];
    var color := window.color;
    if color == "" && ShouldUseAutoColor(cfg) {
      color := GetAutoColor(index);
    }
    ExecMapErr(tmux.respond, tmux.log, ColorSteps(cfg.sessionName, window.name, color), ColorErr(RefOf(cfg, index)));
    ExecAppend(tmux.respond, tmux.log, ColorStepsOf(cfg, index), SelectStepsOf(cfg, index));
    var colorErr := SetWindowColor(tmux, cfg.sessionName, window.name, color);
    if colorErr.Some? {
      return Some(ColorFailed(RefOf(cfg, index), colorErr.value));
    }
    if index > 0 {
      ExecTry<SessionError>(tmux.respond, tmux.log, SelectPaneArgv(cfg.sessionName, index), []);
      var out := tmux.Invoke(SelectPaneArgv(cfg.sessionName, index));
    }
    return None;
  }

  /** One iteration of window creation in `CreateTmuxSession` (the block
      before the loop for the first window, the loop body for the others). */
  method CreateWindow(tmux: Server, cfg: TmuxConfig, index: nat) returns (err: Option<SessionError>)
    requires index < |cfg.windows|
    modifies tmux
    ensures var o := Exec(tmux.respond, old(tmux.log), WindowSteps(cfg, index));
      tmux.log == o.log && err == o.err
  {
    ghost var rest3 := ColorStepsOf(cfg, index) + SelectStepsOf(cfg, index);
    ghost var rest2 := BorderStepsOf(cfg, index) + rest3;
    ghost var rest1 := PaneStepsOf(cfg, index) + rest2;
    var create := CreateStep(cfg, index);
    ExecMust(tmux.respond, tmux.log, create.argv, create.err, rest1);
    var out := tmux.Invoke(create.argv);
    if out.None? {
      return Some(create.err);
    }
    ExecAppend(tmux.respond, tmux.log, PaneStepsOf(cfg, index), rest2);
    err := WindowPanes(tmux, cfg, index);
    if err.Some? {
      return;
    }
    ExecAppend(tmux.respond, tmux.log, BorderStepsOf(cfg, index), rest3);
    err := WindowBorders(tmux, cfg, index);
    if err.Some? {
      return;
    }
    err := WindowColorAndPane(tmux, cfg, index);
  }

  // ---------------------------------------------------------------- the session

  function KillArgv(sessionName: string): Argv {
    ["kill-session", "-t", sessionName]
  }

  const BaseIndexArgv: Argv := ["set-option", "-g", "base-index", "1"]

  function SelectWindowArgv(sessionName: string): Argv {
    ["select-window", "-t", sessionName + ":1"]
  }

  /** The windows from position `index` on, in configuration order. */
  function WindowsFrom(cfg: TmuxConfig, index: nat): seq<Step<SessionError>>
    requires index <= |cfg.windows|
    decreases |cfg.windows| - index
  {
    if index == |cfg.windows| then [] else WindowSteps(cfg, index) + WindowsFrom(cfg, index + 1)
  }

  /** Every window in order, then the selection of the first one. */
  function WindowsThenSelect(cfg: TmuxConfig): seq<Step<SessionError>> {
    WindowsFrom(cfg, 0) + [Must(SelectWindowArgv(cfg.sessionName), SelectFirstWindowFailed)]
  }

  /** The commands of `CreateTmuxSession`: any old session of that name is
      killed and window numbering set to start at 1, both whatever their
      outcome; then, when there are windows, each window in order and the
      selection of the first one. */
  function SessionPlan(cfg: TmuxConfig): seq<Step<SessionError>> {
    [Try(KillArgv(cfg.sessionName)), Try(BaseIndexArgv)]
    + (if |cfg.windows| == 0 then [] else WindowsThenSelect(cfg))
  }

  /** Running the windows from position `index` on: the window at `index`,
      then the rest unless it failed. */
  lemma ExecWindowsFrom(respond: Oracle, history: seq<Argv>, cfg: TmuxConfig, index: nat, after: seq<Step<SessionError>>)
    requires index < |cfg.windows|
    ensures var first := Exec(respond, history, WindowSteps(cfg, index));
      Exec(respond, history, WindowsFrom(cfg, index) + after)
        == if first.err.Some? then first else Exec(respond, first.log, WindowsFrom(cfg, index + 1) + after)
  {
    ExecAppendAssoc(respond, history, WindowSteps(cfg, index), WindowsFrom(cfg, index + 1), after);
  }

  /** With windows, the two preliminary commands never stop the plan. */
  lemma ExecSessionPlan(respond: Oracle, history: seq<Argv>, cfg: TmuxConfig)
    requires |cfg.windows| > 0
    ensures Exec(respond, history, SessionPlan(cfg))
      == Exec(respond, history + [KillArgv(cfg.sessionName)] + [BaseIndexArgv], WindowsThenSelect(cfg))
  {
    ExecTwoTries(respond, history, KillArgv(cfg.sessionName), BaseIndexArgv, WindowsThenSelect(cfg));
  }

  /** The rc files after `AddShellAlias`. */
  function AliasAdded(files: map<string, string>, rcFile: string, sessionName: string,
                      home: Option<string>, join: (string, string) -> string): map<string, string>
  {
    var e := ExpandTilde(rcFile, home, join);
    if e.Success? && e.value in files then files[e.value := AddedContent(files[e.value], sessionName)] else files
  }

  /** The rc files after `RemoveShellAlias`. */
  function AliasRemoved(files: map<string, string>, rcFile: string, sessionName: string,
                        home: Option<string>, join: (string, string) -> string): map<string, string>
  {
    var e := ExpandTilde(rcFile, home, join);
    if e.Success? && e.value in files then files[e.value := RemoveManaged(files[e.value], sessionName)] else files
  }

  /** The windows and the selection of the first one, after the two
      preliminary commands. */
  method CreateWindows(tmux: Server, cfg: TmuxConfig) returns (err: Option<SessionError>)
    requires |cfg.windows| > 0
    modifies tmux
    ensures var o := Exec(tmux.respond, old(tmux.log), WindowsThenSelect(cfg));
      tmux.log == o.log && err == o.err
  {
    ghost var select := [Must(SelectWindowArgv(cfg.sessionName), SelectFirstWindowFailed)];
    ghost var whole := Exec(tmux.respond, tmux.log, WindowsFrom(cfg, 0) + select);
    ExecWindowsFrom(tmux.respond, tmux.log, cfg, 0, select);
    err := CreateWindow(tmux, cfg, 0);
    if err.Some? {
      return;
    }
    for i := 1 to |cfg.windows|
      invariant whole == Exec(tmux.respond, tmux.log, WindowsFrom(cfg, i) + select)
    {
      ExecWindowsFrom(tmux.respond, tmux.log, cfg, i, select);
      err := CreateWindow(tmux, cfg, i);
      if err.Some? {
        return;
      }
    }
    assert WindowsFrom(cfg, |cfg.windows|) + select == [Must(SelectWindowArgv(cfg.sessionName), SelectFirstWindowFailed)] + [];
    ExecMust<SessionError>(tmux.respond, tmux.log, SelectWindowArgv(cfg.sessionName), SelectFirstWindowFailed, []);
    var out := tmux.Invoke(SelectWindowArgv(cfg.sessionName));
    if out.None? {
      return Some(SelectFirstWindowFailed);
    }
    return None;
  }

  /** `CreateTmuxSession`: the tmux commands of the plan; without windows it
      fails after the first two. Once everything succeeded, the session's
      alias is added to the rc file when one is configured; a failure there
      is only a warning. */
  method CreateTmuxSession(tmux: Server, fs: FileStore, cfg: TmuxConfig,
                           home: Option<string>, join: (string, string) -> string)
    returns (err: Option<SessionError>)
    modifies tmux, fs
    ensures var o := Exec(tmux.respond, old(tmux.log), SessionPlan(cfg));
      tmux.log == o.log && err == (if |cfg.windows| == 0 then Some(NoWindows) else o.err)
    ensures fs.files == if err.None? && cfg.rcFile != "" then AliasAdded(old(fs.files), cfg.rcFile, cfg.sessionName, home, join)
                        else old(fs.files)
  {
    var out := tmux.Invoke(KillArgv(cfg.sessionName));
    out := tmux.Invoke(BaseIndexArgv);
    if |cfg.windows| == 0 {
      NoWindowsOnlyPrelude(tmux.respond, old(tmux.log), cfg);
      return Some(NoWindows);
    }
    ExecSessionPlan(tmux.respond, old(tmux.log), cfg);
    err := CreateWindowsThenAlias(tmux, fs, cfg, home, join);
  }

  /** What `CreateTmuxSession` does once it has windows. */
  method CreateWindowsThenAlias(tmux: Server, fs: FileStore, cfg: TmuxConfig,
                                home: Option<string>, join: (string, string) -> string)
    returns (err: Option<SessionError>)
    requires |cfg.windows| > 0
    modifies tmux, fs
    ensures var o := Exec(tmux.respond, old(tmux.log), WindowsThenSelect(cfg));
      tmux.log == o.log && err == o.err
    ensures fs.files == if err.None? && cfg.rcFile != "" then AliasAdded(old(fs.files), cfg.rcFile, cfg.sessionName, home, join)
                        else old(fs.files)
  {
    err := CreateWindows(tmux, cfg);
    if err.Some? {
      return;
    }
    AddAliasIfConfigured(fs, cfg, home, join);
  }

  /** The alias step at the end of `CreateTmuxSession`; its outcome is only
      reported. */
  method AddAliasIfConfigured(fs: FileStore, cfg: TmuxConfig, home: Option<string>, join: (string, string) -> string)
    modifies fs
    ensures fs.files == if cfg.rcFile != "" then AliasAdded(old(fs.files), cfg.rcFile, cfg.sessionName, home, join)
                        else old(fs.files)
  {
    if cfg.rcFile != "" {
      var aliasName := AddShellAlias(fs, cfg.rcFile, cfg.sessionName, home, join);
    }
  }

  /** Without windows only the kill and the base index are issued. */
  lemma NoWindowsOnlyPrelude(respond: Oracle, history: seq<Argv>, cfg: TmuxConfig)
    requires |cfg.windows| == 0
    ensures Exec(respond, history, SessionPlan(cfg)) == Outcome(history + [KillArgv(cfg.sessionName)] + [BaseIndexArgv], None)
  {
    ExecTwoTries<SessionError>(respond, history, KillArgv(cfg.sessionName), BaseIndexArgv, []);
  }

  /** `TerminateTmuxSession`: the alias is removed first when an rc file is
      configured, whatever the outcome (a failure is only a warning), and the
      session is killed in any case. */
  method TerminateTmuxSession(tmux: Server, fs: FileStore, sessionName: string, rcFile: string,
                              home: Option<string>, join: (string, string) -> string)
    returns (err: Option<SessionError>)
    modifies tmux, fs
    ensures fs.files == if rcFile != "" then AliasRemoved(old(fs.files), rcFile, sessionName, home, join) else old(fs.files)
    ensures tmux.log == old(tmux.log) + [KillArgv(sessionName)]
    ensures err == if tmux.respond(old(tmux.log), KillArgv(sessionName)).None? then Some(TerminateFailed(sessionName)) else None
  {
    if rcFile != "" {
      var removeErr := RemoveShellAlias(fs, rcFile, sessionName, home, join);
    }
    var out := tmux.Invoke(KillArgv(sessionName));
    if out.None? {
      return Some(TerminateFailed(sessionName));
    }
    return None;
  }
}
