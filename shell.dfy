/** The shell resolver: the command that starts an interactive login shell
    inside a new pane or window. */
module Shell {
  import opened Strings

  /** The shells whose names are recognised whatever their letter case. */
  predicate IsKnownShell(name: string) {
    name == "zsh" || name == "fish" || name == "bash"
  }

  /** `GetShellCommand`: a recognised shell by its lower-case name, any other
      terminal name unchanged, followed by the login flag ` -l`. */
  function GetShellCommand(terminal: string): (r: string)
    ensures |r| >= 3 && r[|r| - 3..] == " -l"
    ensures IsKnownShell(Lower(terminal)) ==> r[..|r| - 3] == Lower(terminal)
    ensures !IsKnownShell(Lower(terminal)) ==> r[..|r| - 3] == terminal
  {
    var name := Lower(terminal);
    if name == "zsh" then "zsh -l"
    else if name == "fish" then "fish -l"
    else if name == "bash" then "bash -l"
    else terminal + " -l"
  }

  /** Two spellings of a recognised shell that differ only in letter case
      start the same shell. */
  lemma GetShellCommandIgnoresCase(a: string, b: string)
    requires Lower(a) == Lower(b)
    requires IsKnownShell(Lower(a))
    ensures GetShellCommand(a) == GetShellCommand(b)
  {
  }
}
