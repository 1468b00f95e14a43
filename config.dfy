/** The configuration document: sessions, windows, panes and the log-stream
    selection. Each datatype carries the fields that the builder, the session
    orchestration, the pane provisioning and the log streaming actually read
    or set. The two optional flags that Go keeps behind a `*bool` are
    `Option<bool>`, with `None` for a field absent from the document. */
module Config {
  import opened Wrappers

  datatype Pane = Pane(
    id: string,
    command: string,
    split: string,
    splitFrom: string,
    workingDirectory: string,
    preHooks: seq<string>)

  datatype Window = Window(
    name: string,
    color: string,
    panes: seq<Pane>)

  datatype LogStreamConfig = LogStreamConfig(
    enabled: bool,
    windows: seq<string>,
    panes: seq<string>,
    grep: seq<string>)

  datatype TmuxConfig = TmuxConfig(
    sessionName: string,
    workingDirectory: string,
    terminal: string,
    autoColor: Option<bool>,
    showPaneLabels: Option<bool>,
    defaultLabelColor: string,
    rcFile: string,
    logStream: LogStreamConfig,
    windows: seq<Window>)

  /** The log-stream section of a document that has none. */
  const NoLogStream := LogStreamConfig(false, [], [], [])
}
