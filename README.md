# dolly core, modelled in Dafny

dolly provisions tmux workspaces. A configuration describes a session made of
windows. Each window holds panes, and each pane has its own command, working
directory, pre-hooks and split direction. Creating a session issues a fixed
sequence of `tmux` invocations:
- kill any old session of the same name and set `base-index`;
- open each window in its working directory with a login shell;
- split and fill its panes;
- label the pane borders;
- colour the window tab;
- select the first window;
- record an attach alias in the user's shell RC file.

Terminating a session removes that alias and kills the session. A quick mode
builds a one-window configuration from a comma-separated command string.
Optional log streaming opens a `logs` window and feeds it the tmux handles of
selected panes.

This project models that core:
- the quick-session builder (`config/builder.go`);
- the RC-file alias editor (`tmux/rcfile.go`);
- pane setup (`tmux/panes.go`);
- session creation and termination (`tmux/session.go`);
- log streaming (`tmux/streaming.go`);
- the login-shell resolver (`tmux/utils.go`).

The model is organised as follows:

- **tmux is a command log plus an oracle.**
  - `TmuxServer.Server` keeps the log of every invocation (the arguments after
    `tmux`).
  - Its `respond` oracle decides each invocation's outcome from the history:
    `None` means the process failed, `Some(out)` means it succeeded with
    standard output `out`.
  - Each command sequence of the source is written once as a pure *plan*, a
    `seq<Step<E>>`:
    - `Must` aborts with an error when its invocation fails;
    - `Try` ignores the outcome;
    - `Fallback` issues an alternative invocation on failure and ignores that
      one's outcome.
  - `Exec` gives the log and the first error. Every imperative method is
    proved to issue exactly `Exec` of its plan and return its error.
  - Properties are then proved about the plans: which commands are issued, in
    what order, where a failure stops the sequence, and which splits are
    made.
- **The file system is a map.** `RcFile.FileStore` maps paths to contents.
  - A path absent from the map is a missing file.
  - `os.UserHomeDir` is a parameter `home: Option<string>`.
  - `filepath.Join` is a parameter `join`.
- **Regular expressions are given twice.**
  - Once as ghost predicates that describe every way RE2 can match the three
    RC-file patterns.
  - Once as deterministic scans that the editor runs.
  - The two are proved equivalent (`RcPatterns`).
- **Go library behaviour is written out.**
  - `strings.Split`: the empty string gives one empty piece.
  - `strings.Join` and `strings.TrimSpace`, the latter over Go's full
    `unicode.IsSpace` set.
  - `%d` rendering.
  - The letter-case folding that the `strings.ToLower` comparisons rely on.
  - These live in `Strings`.
- **Error values.** Go error values become error datatypes with one
  constructor per error return, carrying the values the message mentions.

Where the code differs from what its names, comments and design notes
suggest, the model follows the code:
- Pane `id` and `split_from` are not validated anywhere in the core.
- Every split targets `session:window`, so `split_from` is never used.
- A later pane whose split is `none`, or anything other than `horizontal` or
  `h`, is split with `-v`.
- `CreateTmuxSession` does not call the streaming functions.
- `TerminateTmuxSession` does no streaming cleanup.
- `CreateTmuxSession` passes the whole configuration where `SetupWindowPanes`
  expects the terminal name (`tmux/session.go:139`, `:186`). The model passes
  the configured terminal.
- The configuration datatypes hold the fields that the core reads.

One behaviour is kept as written:
- The managed-alias check in `AddShellAlias` (`tmux/rcfile.go:97`) is not
  anchored at the end of the line, so a line managed for `foobar` counts as
  managed for `foo`.
- The removal that follows (`tmux/rcfile.go:170`) is anchored, so it leaves
  such a line alone.
- `RcPatterns.AnchoredIsManaged` proves the one direction that holds: every
  line the removal deletes was also detected.

## Model

| member | source | states |
|---|---|---|
| Strings.Split | config/builder.go:16 | `strings.Split` on one separator: at least one piece, none containing the separator |
| Strings.JoinSplit | tmux/rcfile.go:172-182 | joining the pieces of a split gives the original string back |
| Strings.SplitJoin | config/builder.go:16 | splitting a join of separator-free pieces gives the pieces back |
| Strings.TrimSpace | config/builder.go:20 | the trimmed string neither starts nor ends with white space |
| Strings.TrimSpaceSlice | config/builder.go:20 | the trimmed string is a slice of the input; everything cut off before and after it is white space |
| Strings.TrimSpaceClean | config/builder.go:20 | a string without white space at either end is left as it is |
| Strings.NatToString | tmux/streaming.go:98 | `%d` of a natural number is a non-empty string of decimal digits, one digit exactly below 10 |
| Strings.NatToStringInjective | config/builder.go:59 | different numbers render differently |
| Strings.Lower | tmux/utils.go:7 | lower-casing keeps the length and maps each character on its own |
| Strings.LowerIdempotent | tmux/utils.go:7 | lower-casing twice is lower-casing once |
| Shell.GetShellCommand | tmux/utils.go:6-17 | the command ends in ` -l`; a recognised shell (zsh, fish, bash in any case) is named in lower case, any other terminal as given |
| Shell.GetShellCommandIgnoresCase | tmux/utils.go:7-13 | two spellings of a recognised shell that differ only in case start the same shell |
| Builder.ParseCommands | config/builder.go:11-27 | the result is the trimmed non-empty comma-separated pieces in order; the empty string gives no commands; no command is blank, padded or contains a comma |
| Builder.CommandsOfShape | config/builder.go:19-24 | there are at most as many commands as pieces; each is a non-empty trimmed piece without the separator |
| Builder.ParseJoinedCommands | config/builder.go:11-27 | commands joined with bare commas parse back to the same list |
| Builder.Sanitize | config/builder.go:34-35 | sanitising keeps only ASCII letters, digits, `-` and `_`, and never lengthens |
| Builder.SanitizeAppend | config/builder.go:34-35 | sanitising works character by character over a concatenation |
| Builder.SanitizeClean | config/builder.go:34-35 | text made only of identifier characters is unchanged |
| Builder.BaseId | config/builder.go:37-52 | the base id has 1 to 10 characters: `pane` for an empty sanitised command, the whole sanitised command up to 9 characters, else its first 4, `..` and its last 4 |
| Builder.IdCandidateInjective | config/builder.go:55-60 | different counters give different candidates `base`, `base-2`, `base-3`, ... |
| Builder.TriedIdsFacts | config/builder.go:55-60 | the candidates before a counter are distinct and exclude every later candidate |
| Builder.FirstFreeUnique | config/builder.go:55-61 | there is only one first free candidate |
| Builder.SearchStep | config/builder.go:57-60 | a used candidate moves the search on and strictly shrinks the used-but-untried set, so the search ends |
| Builder.NextPaneIdFirstFree | config/builder.go:55-61 | the id handed out is not yet used, and every candidate before it was used |
| Builder.NextPaneIdFresh | config/builder.go:55-57 | an unused base id is handed out unchanged |
| Builder.PaneIdRegistry.constructor | config/builder.go:81 | a new registry has no ids |
| Builder.PaneIdRegistry.GeneratePaneId | config/builder.go:32-64 | returns the first free candidate of the command's base id and adds exactly that id to the registry |
| Builder.ElemSetMembers | config/builder.go:81-87 | the registry built from a list of ids holds exactly those ids |
| Builder.GeneratePaneIds | config/builder.go:81-87 | the ids are those of successive `generatePaneID` calls, one per command in order, on one fresh registry |
| Builder.GeneratedIdsDistinct | config/builder.go:84-87 | the ids generated for the commands are pairwise distinct |
| Builder.QuickPanesIdsDistinct | config/builder.go:89-106 | every pane of a quick-session window has its own id |
| Builder.QuickPanesBuilt | config/builder.go:89-106 | the panes built from the generated ids form the quick-session window |
| Builder.BuildQuickPanes | config/builder.go:89-106 | pane `i` runs command `i` in the directory with id `i`; pane 0 splits `none`; later panes split `vertical` from the previous pane's id |
| Builder.BuildConfigFromCommands | config/builder.go:68-121 | no commands gives the no-commands error; no directory and no current directory gives the directory error; otherwise one `exec` window of bash panes, one per command, in order, with distinct generated ids chained by `split_from` |
| TmuxServer.Server.constructor | tmux/panes.go:26-27 | a new server has an empty command log |
| TmuxServer.Server.Invoke | tmux/panes.go:26-27 | one invocation appends its arguments to the log and returns the oracle's answer for that history |
| TmuxServer.ExecExtends | tmux/session.go:104-236 | a command sequence only appends to the log, at most two invocations per step |
| TmuxServer.ExecAppend | tmux/session.go:134-161 | running two sequences in a row: the second runs only when the first did not fail |
| TmuxServer.ExecStopsAtFailure | tmux/panes.go:101-113 | without fallbacks, a sequence either issues all of its invocations without error, or stops with the error of the first failing `Must` right after issuing it |
| TmuxServer.ExecMapErr | tmux/session.go:139-142 | wrapping the errors of a sequence changes neither its log nor whether it fails |
| TmuxServer.MapErr | tmux/session.go:139-142 | wrapping the errors of a sequence keeps its invocations |
| TmuxServer.PlannedArgv | tmux/panes.go:50-117 | the invocations of a sequence that does not fail are its steps' invocations in order |
| Panes.GetPaneWorkingDir | tmux/panes.go:12-17 | the pane's own directory when set, else the fallback |
| Panes.NonEmpty | tmux/panes.go:20-23 | exactly the non-empty hooks are kept |
| Panes.HookStepsSendNonEmpty | tmux/panes.go:19-35 | exactly the non-empty hooks are sent, in order, to the pane, each failing with its own hook |
| Panes.ExecutePreHooks | tmux/panes.go:19-35 | issues exactly the hook sequence and returns its first error |
| Panes.ExecuteCommand | tmux/panes.go:37-48 | an empty command issues nothing; otherwise one `send-keys` to the pane, failing with the pane index |
| Panes.SplitFlag | tmux/panes.go:69-77 | `-h` exactly when the lower-cased split is `horizontal` or `h`, `-v` otherwise |
| Panes.SplitArgvShape | tmux/panes.go:79-99 | a split targets the window, passes `-c` with the pane's resolved directory exactly when that is non-empty, and ends with the terminal's login shell |
| Panes.SetupWindowPanes | tmux/panes.go:50-117 | issues exactly the pane-setup sequence (first pane's hooks and command, then for each later pane its split, hooks and command) and returns its first error |
| Panes.HooksThenCommand | tmux/panes.go:105-113 | one pane's hooks then command, stopping at the first failure |
| PanesFacts.SetupWindowPanesSplits | tmux/panes.go:50-117 | on success the whole sequence is issued, with one split per pane after the first, in order; on failure the log ends at the failing invocation and the error is that step's |
| PanesFacts.PanesFromSplits | tmux/panes.go:65-114 | the splits of the later panes are one per pane, in pane order, and the sequence has no fallbacks |
| PanesFacts.HookStepsTypeOnly | tmux/panes.go:19-35 | hooks only send keys: no splits and no fallbacks |
| RcPatterns.DefinesAliasIff | tmux/rcfile.go:35 | the scan for an alias definition holds exactly when `^\s*alias\s+N=` matches |
| RcPatterns.ManagedLineIff | tmux/rcfile.go:97 | the managed-line scan holds exactly when the managed-line pattern matches (end-anchored or not) |
| RcPatterns.MarkerAtIff | tmux/rcfile.go:170 | the marker scan at a position holds exactly when `#\s*dolly-managed:\s*N` (with `\s*$` when anchored) matches there |
| RcPatterns.TailAtIff | tmux/rcfile.go:170 | the end-of-line check holds exactly when only `\s` characters follow the name |
| RcPatterns.AnchoredIsManaged | tmux/rcfile.go:97 | every line the removal deletes is also detected as managed by the add-time check |
| RcFile.ExpandTilde | tmux/rcfile.go:12-28 | a path without `~` is unchanged; with `~` it needs the home directory; `~` alone is home; otherwise home joined with the rest |
| RcFile.AliasLineMatches | tmux/rcfile.go:132 | the written alias line defines its alias name and is managed for the session, in both the anchored and the unanchored sense |
| RcFile.CandidateInjective | tmux/rcfile.go:34-53 | the 100 alias candidates `base-dolly`, `base-dolly-1`, ..., `base-dolly-99` are pairwise different |
| RcFile.TakenCandidates | tmux/rcfile.go:35-44 | entry `i` says whether some line defines candidate `i` |
| RcFile.FirstFreeIsFirst | tmux/rcfile.go:46-69 | the search passes over only taken candidates and stops at a free one, or at the last one |
| RcFile.FirstFreeAliasIsFirst | tmux/rcfile.go:32-70 | the chosen name is candidate `m`: every candidate before `m` is defined by some line, and `m` is free unless it is the last one, `base-dolly-99` |
| RcFile.AnyDefines | tmux/rcfile.go:37-44 | the line scan finds a definition exactly when some line defines the alias |
| RcFile.LastCandidate | tmux/rcfile.go:69 | the fallback name is the last candidate |
| RcFile.FindNextAvailableAlias | tmux/rcfile.go:32-70 | returns the first free candidate for the split lines of the content |
| RcFile.KeptMembers | tmux/rcfile.go:172-179 | the kept lines are exactly the lines that are not managed for the session (end-anchored) |
| RcFile.KeptAll | tmux/rcfile.go:172-179 | when no line matches, every line is kept |
| RcFile.RemoveManagedNoMatch | tmux/rcfile.go:169-182 | removal leaves content without a matching line unchanged |
| RcFile.RemoveManagedClean | tmux/rcfile.go:169-182 | after removal no line is managed for the session |
| RcFile.RemoveManagedIdempotent | tmux/rcfile.go:169-182 | removing twice is removing once |
| RcFile.AppendLineSplit | tmux/rcfile.go:134-139 | appending adds the line as the last line, followed only by the empty remainder after its newline; every line before it is a line of the old content |
| RcFile.AliasNameOneLine | tmux/rcfile.go:114-116 | the alias name holds no newline when the session name holds none |
| RcFile.AliasNameForRenames | tmux/rcfile.go:99-116 | the alias gets a new name exactly when no line is managed for the session and some line already defines an alias of the session's name |
| RcFile.AddBaseClean | tmux/rcfile.go:118-129 | the content appended to has no line managed for the session |
| RcFile.AppendAliasOneManaged | tmux/rcfile.go:132-139 | appending the alias line to content without an exact marker for the session leaves the alias line last, followed only by the empty remainder, and the only line with that marker |
| RcFile.AddedContentOneManaged | tmux/rcfile.go:118-139 | after adding, the alias line is the last line and the only end-anchored managed line for the session |
| RcFile.FileStore.constructor | tmux/rcfile.go:81-87 | the store holds the given files |
| RcFile.ScanAliases | tmux/rcfile.go:99-111 | managed is whether any line is managed (unanchored); when none is, conflict is whether any line defines an alias of the session's name |
| RcFile.AppendAliasLine | tmux/rcfile.go:134-144 | writes the content with the alias line appended, nothing else |
| RcFile.RemoveShellAlias | tmux/rcfile.go:150-188 | an unexpandable path fails and writes nothing; a missing file succeeds and writes nothing; otherwise every end-anchored managed line is removed |
| RcFile.AddShellAlias | tmux/rcfile.go:74-147 | an unexpandable path or a missing file fails and writes nothing; otherwise returns the (possibly renamed) alias name and writes the content with old managed lines removed and the alias line appended |
| Streaming.Contains | tmux/streaming.go:158-165 | true exactly when the item is in the slice |
| Streaming.PaneIdOrDefault | tmux/streaming.go:96-99 | the pane's id when set, else `pane` followed by its position counted from 1 |
| Streaming.SelectionFromMembers | tmux/streaming.go:89-104 | a pane is selected from a position on exactly when it is in scope: it exists at or after that position and both filters admit it |
| Streaming.SelectionIsFiltered | tmux/streaming.go:86-104 | a pane is selected exactly when its window passes the window filter (name or `*`) and its id passes the pane filter (id or `*`); selection is in window-then-pane order without repeats |
| Streaming.LookupFromQueries | tmux/streaming.go:106-115 | the lookups only append to the log, one `display-message` query per selected pane in order, and find at most one handle per pane |
| Streaming.LookupsOnlyQuery | tmux/streaming.go:122-129 | the lookups append only `display-message ... -p #{pane_id}` queries, as many as there are selected panes |
| Streaming.PaneLookup | tmux/streaming.go:96-115 | one pane of a selected window: a pane the filter skips issues nothing; otherwise one query, and its trimmed answer is kept when it succeeds, so at most one handle |
| Streaming.WindowLookups | tmux/streaming.go:95-115 | the handles found in one selected window, in pane order, after which the lookups continue with the next window |
| Streaming.LookupFromAnswers | tmux/streaming.go:106-115 | the handles the lookups collect are the trimmed answers of the queries they issue that succeed, in order; a failed lookup contributes nothing |
| Streaming.LookupsAnswerSelection | tmux/streaming.go:86-118 | one query per selected pane in window-then-pane order, and the handles are the trimmed successful answers to those queries in the same order |
| Streaming.GetTargetPanes | tmux/streaming.go:81-119 | issues exactly the lookups of the selected panes and returns the trimmed handles of those whose query succeeded, in order |
| Streaming.BuildStreamingCommandWords | tmux/streaming.go:139-154 | with handles and words free of spaces, the command's words are the script, the session, the optional `--grep` keywords `--` segment, then the handles |
| Streaming.GrepSegmentIffKeywords | tmux/streaming.go:145-149 | `--grep` appears exactly when there are keywords |
| Streaming.BuildStreamingCommandEmpty | tmux/streaming.go:133-135 | without handles the command is the nothing-to-stream message |
| Streaming.StreamingWindowDisabled | tmux/streaming.go:14-16 | with streaming disabled nothing is issued |
| Streaming.CreateStreamingWindow | tmux/streaming.go:13-47 | issues the `logs` window creation (with `-c` when a directory is set) then its move to position 0, stopping at the first failure |
| Streaming.StartLogStreaming | tmux/streaming.go:50-78 | disabled: nothing issued, no error; otherwise the lookups, then no handles gives the no-panes error, else the monitor command is sent to the `logs` window, failing with the stream error |
| Session.ShouldShowPaneLabelsGlobal | tmux/session.go:11-16 | labels are on unless explicitly switched off |
| Session.GetDefaultLabelColor | tmux/session.go:18-23 | the configured label colour, else `blue`; never empty |
| Session.ShouldUseAutoColor | tmux/session.go:72-77 | automatic colours are on unless explicitly switched off |
| Session.GetAutoColor | tmux/session.go:48-69 | the colour is a non-empty palette entry, and for the first fifteen windows it is the palette entry at the window's position |
| Session.AutoColorPeriodic | tmux/session.go:48-69 | window i gets palette[i mod 15]; the colours repeat every fifteen windows, so window 0 is green, window 14 bright white and window 15 green again |
| Session.PaletteDistinct | tmux/session.go:48-64 | the palette has 15 pairwise different colours |
| Session.AutoColorCycle | tmux/session.go:66-69 | two windows get the same automatic colour exactly when their positions agree modulo 15 |
| Session.WindowColor | tmux/session.go:152-158 | a window's own colour wins; no colour exactly when it has none and automatic colours are off; otherwise the palette colour of its position |
| Session.WindowWorkingDir | tmux/session.go:118-123 | the first pane's own directory when set, else the session's |
| Session.CreateStepWorkingDir | tmux/session.go:125-132 | window creation passes `-c` exactly when the resolved directory is non-empty, then that directory, and ends with the login shell |
| Session.EnablePaneBordersForWindow | tmux/session.go:25-45 | issues border status then border format for the window, stopping with the matching error at the first failure |
| Session.ColorSteps | tmux/session.go:79-102 | no colour means no commands; otherwise a required tab style and a current-tab style with a plain fallback |
| Session.ColorFailsOnlyOnTabStyle | tmux/session.go:79-102 | setting a colour fails only when the first (tab style) invocation fails, right after it |
| Session.SetWindowColor | tmux/session.go:79-102 | issues exactly the colour sequence and returns its error |
| Session.WindowPanes | tmux/session.go:138-142 | issues the window's pane setup, with errors attributed to the window |
| Session.WindowBorders | tmux/session.go:144-150 | issues the window's border labels when labels are on, errors attributed to the window |
| Session.WindowColorAndPane | tmux/session.go:199-211 | issues the window's colour, then for a later window the selection of its pane 0 |
| Session.CreateWindow | tmux/session.go:164-212 | issues everything for one window in order (create, panes, borders, colour, pane selection) and returns its first error |
| Session.ExecWindowsFrom | tmux/session.go:164-212 | the windows from a position on run one after the other, stopping at the first window that fails |
| Session.ExecSessionPlan | tmux/session.go:105-109 | with windows, the kill and base-index invocations are issued and never stop the session |
| Session.NoWindowsOnlyPrelude | tmux/session.go:104-114 | without windows only the kill and the base-index invocations are issued |
| Session.CreateWindows | tmux/session.go:116-218 | issues every window in order then the selection of the first window, stopping at the first failure |
| Session.AddAliasIfConfigured | tmux/session.go:220-233 | with an rc file the alias is added; its failure does not fail the session |
| Session.CreateWindowsThenAlias | tmux/session.go:116-233 | the windows and selection, then the alias only when they succeed |
| Session.CreateTmuxSession | tmux/session.go:104-236 | issues exactly the session sequence; no windows gives the no-windows error; the rc file gains the alias only when creation succeeds and an rc file is set |
| Session.TerminateTmuxSession | tmux/session.go:238-254 | removes the alias when an rc file is set, whatever the outcome; then issues one kill, whose failure alone is the error |

## Left out

- File read and write errors other than a missing file are not modelled: the store either has a path or not. As a result the failure of the removal inside `AddShellAlias` (`tmux/rcfile.go:120-128`) cannot occur in the model.
- The `time.Sleep` pauses after pre-hooks and after the streaming window are left out; they change no state.
- Printing to standard output and error (warnings, the alias notes, the lookup warning in `getTargetPanes`) is left out; those outputs carry no state.
- `os.UserHomeDir`, `filepath.Join` and `os.Getwd` are parameters of the model, not modelled.
- tmux itself is an oracle over the command history; what tmux does with each command is not modelled.
- Strings.Lower: only ASCII letters and U+0130 are folded; other Unicode case mappings of `strings.ToLower` cannot turn a string into `zsh`, `fish`, `bash`, `horizontal` or `h`, which are the only comparisons made with it.
- The output text attached to a failed `new-window` (`tmux/session.go:181-183`) and the wording of error messages are left out; errors are constructors carrying the values the messages name.
- `getTmuxPaneIDByWindow` (`tmux/streaming.go:122-129`) is not a separate member: its query is `Streaming.DisplayArgv` and its trimmed answer is taken inside `Streaming.LookupFrom`.
- The unused `terminal` parameter of `executePreHooks` is dropped.
- The command-line entry point, the configuration loader and writer, the prompt and the test command are not part of this model.
