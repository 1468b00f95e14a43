/** The tmux server as the core sees it: every `exec.Command("tmux", ...)`
    invocation is appended to a command log, and an oracle says how each
    invocation ends, given every invocation before it. Ordered command
    sequences are described by plans of steps, and `Exec` says what log a plan
    leaves behind and which error it stops with. */
module TmuxServer {
  import opened Wrappers

  /** The arguments after `tmux`. */
  type Argv = seq<string>

  /** How the server answers `argv` after `history`: `None` when the
      invocation exits with an error, `Some(out)` with its standard output
      when it succeeds. */
  type Oracle = (seq<Argv>, Argv) -> Option<string>

  /** One invocation of an ordered command sequence. */
  datatype Step<E> =
    | Must(argv: Argv, err: E)        // a failure aborts the sequence with `err`
    | Try(argv: Argv)                 // the outcome is ignored
    | Fallback(argv: Argv, alt: Argv) // a failure issues `alt`, whose outcome is ignored

  /** The command log after a sequence, and the error it stopped with, if any. */
  datatype Outcome<E> = Outcome(log: seq<Argv>, err: Option<E>)

  /** Running one step after `history`. */
  function RunStep<E>(respond: Oracle, history: seq<Argv>, step: Step<E>): Outcome<E> {
    match step
    case Must(argv, err) =>
      if respond(history, argv).None? then Outcome(history + [argv], Some(err))
      else Outcome(history + [argv], None)
    case Try(argv) => Outcome(history + [argv], None)
    case Fallback(argv, alt) =>
      if respond(history, argv).None? then Outcome(history + [argv, alt], None)
      else Outcome(history + [argv], None)
  }

  /** Running a plan after `history`: the steps in order, up to and including
      the first `Must` step that fails. */
  function Exec<E>(respond: Oracle, history: seq<Argv>, steps: seq<Step<E>>): Outcome<E>
    decreases |steps|
  {
    if steps == [] then Outcome(history, None)
    else
      var first := RunStep(respond, history, steps[0]);
      if first.err.Some? then first else Exec(respond, first.log, steps[1..])
  }

  /** A plan only appends to the log, at most two invocations per step. */
  lemma {:induction false} ExecExtends<E>(respond: Oracle, history: seq<Argv>, steps: seq<Step<E>>)
    ensures var o := Exec(respond, history, steps);
      |history| <= |o.log| <= |history| + 2 * |steps| && o.log[..|history|] == history
    decreases |steps|
  {
    if steps != [] {
      var first := RunStep(respond, history, steps[0]);
      if first.err.None? {
        ExecExtends(respond, first.log, steps[1..]);
        var o := Exec(respond, first.log, steps[1..]);
        assert o.log[..|history|] == o.log[..|first.log|][..|history|];
      }
    }
  }

  /** Running two plans one after the other: the second one only runs when the
      first one finishes without error, and it starts from the log the first
      one left. */
  lemma {:induction false} ExecAppend<E>(respond: Oracle, history: seq<Argv>, a: seq<Step<E>>, b: seq<Step<E>>)
    ensures var first := Exec(respond, history, a);
      Exec(respond, history, a + b)
        == if first.err.Some? then first else Exec(respond, first.log, b)
    decreases |a|
  {
    if a == [] {
      assert a + b == b;
    } else {
      assert (a + b)[0] == a[0] && (a + b)[1..] == a[1..] + b;
      var step := RunStep(respond, history, a[0]);
      if step.err.None? {
        ExecAppend(respond, step.log, a[1..], b);
      }
    }
  }

  /** `ExecAppend` for a plan whose first part is itself split in two. */
  lemma ExecAppendAssoc<E>(respond: Oracle, history: seq<Argv>, a: seq<Step<E>>, b: seq<Step<E>>, c: seq<Step<E>>)
    ensures var first := Exec(respond, history, a);
      Exec(respond, history, (a + b) + c)
        == if first.err.Some? then first else Exec(respond, first.log, b + c)
  {
    assert (a + b) + c == a + (b + c);
    ExecAppend(respond, history, a, b + c);
  }

  /** A `Must` step followed by more steps. */
  lemma ExecMust<E>(respond: Oracle, history: seq<Argv>, argv: Argv, err: E, rest: seq<Step<E>>)
    ensures Exec(respond, history, [Must(argv, err)] + rest)
      == if respond(history, argv).None? then Outcome(history + [argv], Some(err))
         else Exec(respond, history + [argv], rest)
  {
    assert ([Must(argv, err)] + rest)[1..] == rest;
  }

  /** A `Try` step followed by more steps. */
  lemma ExecTry<E>(respond: Oracle, history: seq<Argv>, argv: Argv, rest: seq<Step<E>>)
    ensures Exec(respond, history, [Try(argv)] + rest) == Exec(respond, history + [argv], rest)
  {
    assert ([Try(argv)] + rest)[1..] == rest;
  }

  /** Two `Try` steps in front of a plan. */
  lemma ExecTwoTries<E>(respond: Oracle, history: seq<Argv>, x: Argv, y: Argv, rest: seq<Step<E>>)
    ensures Exec(respond, history, [Try(x), Try(y)] + rest) == Exec(respond, history + [x] + [y], rest)
  {
    assert [Try(x), Try(y)] + rest == [Try(x)] + ([Try(y)] + rest);
    ExecTry(respond, history, x, [Try(y)] + rest);
    ExecTry(respond, history + [x], y, rest);
  }

  /** A `Fallback` step followed by more steps. */
  lemma ExecFallback<E>(respond: Oracle, history: seq<Argv>, argv: Argv, alt: Argv, rest: seq<Step<E>>)
    ensures Exec(respond, history, [Fallback(argv, alt)] + rest)
      == Exec(respond, if respond(history, argv).None? then history + [argv, alt] else history + [argv], rest)
  {
    assert ([Fallback(argv, alt)] + rest)[1..] == rest;
  }

  /** The invocations of a plan when nothing fails. */
  function Planned<E>(steps: seq<Step<E>>): seq<Argv>
    decreases |steps|
  {
    if steps == [] then [] else [steps[0].argv] + Planned(steps[1..])
  }

  /** The planned invocations are the steps' own invocations, in order. */
  lemma {:induction false} PlannedArgv<E>(steps: seq<Step<E>>)
    ensures |Planned(steps)| == |steps|
    ensures forall i :: 0 <= i < |steps| ==> Planned(steps)[i] == steps[i].argv
    decreases |steps|
  {
    if steps != [] {
      PlannedArgv(steps[1..]);
    }
  }

  /** A plan without fallbacks appends its planned invocations when it
      finishes without error, and otherwise exactly the planned invocations up
      to and including a failing `Must` step, whose error it returns: nothing
      after a failure is issued. */
  lemma ExecStopsAtFailure<E>(respond: Oracle, history: seq<Argv>, steps: seq<Step<E>>)
    requires forall i :: 0 <= i < |steps| ==> !steps[i].Fallback?
    ensures var o := Exec(respond, history, steps);
      (o.err.None? ==> o.log == history + Planned(steps))
      && (o.err.Some? ==> exists k :: 0 <= k < |steps| && steps[k].Must? && o.err == Some(steps[k].err)
                                      && o.log == history + Planned(steps[..k + 1]))
  {
    var o := Exec(respond, history, steps);
    if o.err.None? {
      ExecFinishes(respond, history, steps);
    } else {
      var k := ExecFails(respond, history, steps);
    }
  }

  lemma {:induction false} ExecFinishes<E>(respond: Oracle, history: seq<Argv>, steps: seq<Step<E>>)
    requires forall i :: 0 <= i < |steps| ==> !steps[i].Fallback?
    requires Exec(respond, history, steps).err.None?
    ensures Exec(respond, history, steps).log == history + Planned(steps)
    decreases |steps|
  {
    if steps == [] {
      assert history + [] == history;
    } else {
      var first := RunStep(respond, history, steps[0]);
      var tail := steps[1..];
      assert forall i :: 0 <= i < |tail| ==> tail[i] == steps[i + 1];
      ExecFinishes(respond, first.log, tail);
      assert history + [steps[0].argv] + Planned(tail) == history + ([steps[0].argv] + Planned(tail));
    }
  }

  lemma {:induction false} ExecFails<E>(respond: Oracle, history: seq<Argv>, steps: seq<Step<E>>) returns (k: nat)
    requires forall i :: 0 <= i < |steps| ==> !steps[i].Fallback?
    requires Exec(respond, history, steps).err.Some?
    ensures k < |steps| && steps[k].Must?
    ensures Exec(respond, history, steps).err == Some(steps[k].err)
    ensures Exec(respond, history, steps).log == history + Planned(steps[..k + 1])
    decreases |steps|
  {
    var first := RunStep(respond, history, steps[0]);
    if first.err.Some? {
      k := 0;
      assert steps[..1] == [steps[0]];
      assert steps[..1][1..] == [];
    } else {
      var tail := steps[1..];
      assert forall i :: 0 <= i < |tail| ==> tail[i] == steps[i + 1];
      var j := ExecFails(respond, first.log, tail);
      k := j + 1;
      assert steps[..k + 1][0] == steps[0];
      assert steps[..k + 1][1..] == tail[..j + 1];
      assert history + [steps[0].argv] + Planned(tail[..j + 1])
          == history + ([steps[0].argv] + Planned(tail[..j + 1]));
    }
  }

  /** A plan whose errors are wrapped by `f`. */
  function MapErr<E, F>(steps: seq<Step<E>>, f: E -> F): (r: seq<Step<F>>)
    ensures |r| == |steps|
    ensures forall i :: 0 <= i < |steps| ==> r[i].argv == steps[i].argv
    decreases |steps|
  {
    if steps == [] then []
    else
      var s := match steps[0]
        case Must(argv, err) => Must(argv, f(err))
        case Try(argv) => Try(argv)
        case Fallback(argv, alt) => Fallback(argv, alt);
      [s] + MapErr(steps[1..], f)
  }

  /** Wrapping errors changes neither the log nor whether the plan fails. */
  lemma {:induction false} ExecMapErr<E, F>(respond: Oracle, history: seq<Argv>, steps: seq<Step<E>>, f: E -> F)
    ensures var o := Exec(respond, history, steps);
      Exec(respond, history, MapErr(steps, f))
        == Outcome(o.log, if o.err.Some? then Some(f(o.err.value)) else None)
    decreases |steps|
  {
    if steps != [] {
      ExecMapErr(respond, RunStep(respond, history, steps[0]).log, steps[1..], f);
    }
  }

  /** The tmux server: the log of invocations so far, and the oracle that
      answers them. */
  class Server {
    var log: seq<Argv>
    const respond: Oracle

    constructor (respond: Oracle)
      ensures this.respond == respond && log == []
    {
      this.respond := respond;
      log := [];
    }

    /** `exec.Command("tmux", argv...)` run to completion. */
    method Invoke(argv: Argv) returns (out: Option<string>)
      modifies this
      ensures log == old(log) + [argv]
      ensures out == respond(old(log), argv)
    {
      out := respond(log, argv);
      log := log + [argv];
    }
  }
}
