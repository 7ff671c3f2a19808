/**
 * The CLI runner of the harness (tests/helpers/cli.go): role switching before
 * every command, the wrappers that fix each command's arguments and role, and
 * the "use, else create then use" rule for environments.
 *
 * Spawning the `lissto` binary is not modelled: an oracle maps the current
 * state of the outside world and a command line to the next state and the
 * process's reply. A session records every command issued, with its reply, so
 * that contracts can speak about the command trace.
 */
module Cli {
  import opened Wrappers
  import opened Text

  /** The three CLI contexts the suite switches between. */
  const RoleAdmin: string := "e2e-admin"
  const RoleDeploy: string := "e2e-deploy"
  const RoleUser: string := "e2e-user"

  /** The arguments given to the CLI binary. */
  type Command = seq<string>

  /** How a spawned process ended: cleanly, or with the error exec reports (non-zero exit, missing binary). */
  datatype Exit = Exited | Failed(reason: string)

  /** What a spawned process produced. */
  datatype Process = Process(stdout: string, stderr: string, exit: Exit)

  /** The outside world's answer to a command: its next state and the process's reply. */
  type Oracle<!S> = (S, Command) -> (S, Process)

  /** One command issued, with the reply it got. */
  datatype Event = Event(cmd: Command, reply: Process) {
    predicate Succeeded() {
      reply.exit.Exited?
    }
  }

  /** The world as it now stands and every command issued so far, oldest first. */
  datatype Session<S> = Session(world: S, log: seq<Event>)

  /** The errors the runner returns. */
  datatype CliError =
    | CommandFailed(reason: string, stderr: string, stdout: string)
    | ContextSwitchFailed(role: string, cause: CliError)

  /** Go's `(string, error)` result pair. */
  datatype Outcome = Outcome(output: string, err: Option<CliError>)

  /** A runner call's result: the session afterwards and the value returned. */
  datatype Step<S> = Step(session: Session<S>, out: Outcome)

  /** A call whose only result is an error (EnsureEnv). */
  datatype Done<S> = Done(session: Session<S>, err: Option<CliError>)

  /** The failed command at the bottom of a chain of wrapped errors. */
  function RootCause(e: CliError): (c: CliError)
    ensures c.CommandFailed?
  {
    match e
    case CommandFailed(_, _, _) => e
    case ContextSwitchFailed(_, cause) => RootCause(cause)
  }

  predicate EndsWith(s: string, suffix: string) {
    |suffix| <= |s| && s[|s| - |suffix|..] == suffix
  }

  /** The part of an error message that quotes a failed process's streams. */
  function StreamsQuote(c: CliError): string
    requires c.CommandFailed?
  {
    "\nstderr: " + c.stderr + "\nstdout: " + c.stdout
  }

  lemma EndsWithAfterPrefix(front: string, s: string, suffix: string)
    requires EndsWith(s, suffix)
    ensures EndsWith(front + s, suffix)
  {
    assert (front + s)[|front + s| - |suffix|..] == s[|s| - |suffix|..];
  }

  /**
   * The text of an error, as `fmt.Errorf` renders it. Every message ends with
   * the failed process's standard error and standard output, verbatim, however
   * often the error was wrapped.
   */
  function Message(e: CliError): (m: string)
    ensures EndsWith(m, StreamsQuote(RootCause(e)))
  {
    match e
    case CommandFailed(reason, stderr, stdout) =>
      var m := "command failed: " + reason + "\nstderr: " + stderr + "\nstdout: " + stdout;
      assert m == ("command failed: " + reason) + StreamsQuote(e);
      EndsWithAfterPrefix("command failed: " + reason, StreamsQuote(e), StreamsQuote(e));
      m
    case ContextSwitchFailed(role, cause) =>
      var front := "failed to switch to context " + role + ": ";
      EndsWithAfterPrefix(front, Message(cause), StreamsQuote(RootCause(e)));
      front + Message(cause)
  }

  /** The error runCommand builds from a process that did not exit cleanly. */
  function FailureOf(p: Process): CliError
    requires !p.exit.Exited?
  {
    CommandFailed(p.exit.reason, p.stderr, p.stdout)
  }

  /** runCommand's result: standard output always, and an error exactly when the process failed. */
  function OutcomeOf(p: Process): (o: Outcome)
    ensures o.output == p.stdout
    ensures o.err.None? <==> p.exit.Exited?
    ensures o.err.Some? ==> o.err.value.CommandFailed? && Message(o.err.value) == "command failed: " + p.exit.reason + "\nstderr: " + p.stderr + "\nstdout: " + p.stdout
  {
    if p.exit.Exited? then Outcome(p.stdout, None) else Outcome(p.stdout, Some(FailureOf(p)))
  }

  /** `events`, fed to the oracle one after the other from `from`, produce exactly their replies and end in `to`. */
  predicate Replays<S(==)>(cli: Oracle<S>, from: S, events: seq<Event>, to: S)
    decreases |events|
  {
    if |events| == 0 then from == to
    else
      var next := cli(from, events[0].cmd);
      next.1 == events[0].reply && Replays(cli, next.0, events[1..], to)
  }

  /** `after` extends `before`'s log with events the oracle really produced, and stands in the world they lead to. */
  predicate Continues<S(==)>(cli: Oracle<S>, before: Session<S>, after: Session<S>) {
    && |before.log| <= |after.log|
    && after.log[..|before.log|] == before.log
    && Replays(cli, before.world, after.log[|before.log|..], after.world)
  }

  /** The commands issued between two sessions. */
  function NewEvents<S>(before: Session<S>, after: Session<S>): seq<Event>
    requires |before.log| <= |after.log|
  {
    after.log[|before.log|..]
  }

  lemma {:induction false} ReplaysConcat<S>(cli: Oracle<S>, a: S, e1: seq<Event>, b: S, e2: seq<Event>, c: S)
    requires Replays(cli, a, e1, b) && Replays(cli, b, e2, c)
    ensures Replays(cli, a, e1 + e2, c)
    decreases |e1|
  {
    if |e1| > 0 {
      var next := cli(a, e1[0].cmd);
      ReplaysConcat(cli, next.0, e1[1..], b, e2, c);
      assert (e1 + e2)[1..] == e1[1..] + e2;
    } else {
      assert e1 + e2 == e2;
    }
  }

  /** Continuation is transitive, and the new events of the whole are those of the parts in order. */
  lemma ContinuesTrans<S>(cli: Oracle<S>, a: Session<S>, b: Session<S>, c: Session<S>)
    requires Continues(cli, a, b) && Continues(cli, b, c)
    ensures Continues(cli, a, c)
    ensures NewEvents(a, c) == NewEvents(a, b) + NewEvents(b, c)
  {
    assert c.log == b.log + NewEvents(b, c);
    assert b.log == a.log + NewEvents(a, b);
    assert c.log[..|a.log|] == a.log;
    assert NewEvents(a, c) == NewEvents(a, b) + NewEvents(b, c);
    ReplaysConcat(cli, a.world, NewEvents(a, b), b.world, NewEvents(b, c), c.world);
  }

  /** `runCommand` (also exposed as `Run`): issues one command and reports its output and failure. */
  function RunCommand<S(==)>(cli: Oracle<S>, s: Session<S>, args: Command): (r: Step<S>)
    ensures Continues(cli, s, r.session)
    ensures |NewEvents(s, r.session)| == 1 && NewEvents(s, r.session)[0].cmd == args
    ensures r.out == OutcomeOf(NewEvents(s, r.session)[0].reply)
  {
    var next := cli(s.world, args);
    var after := Session(next.0, s.log + [Event(args, next.1)]);
    assert NewEvents(s, after) == [Event(args, next.1)];
    assert Replays(cli, next.0, [], next.0);
    Step(after, OutcomeOf(next.1))
  }

  function ContextUse(role: string): Command {
    ["context", "use", role]
  }

  /**
   * What RunAs does, in terms of the commands it issued: first `context use
   * role`; if that fails, nothing else, and the result is "" with the wrapped
   * error; otherwise exactly the target command, whose result is returned as is.
   */
  predicate RanAs(role: string, args: Command, e: seq<Event>, out: Outcome) {
    && 1 <= |e| <= 2
    && e[0].cmd == ContextUse(role)
    && (|e| == 2 <==> e[0].Succeeded())
    && (|e| == 1 ==> out == Outcome("", Some(ContextSwitchFailed(role, FailureOf(e[0].reply)))))
    && (|e| == 2 ==> e[1].cmd == args && out == OutcomeOf(e[1].reply))
  }

  /** `RunAs`. */
  function RunAs<S(==)>(cli: Oracle<S>, s: Session<S>, role: string, args: Command): (r: Step<S>)
    ensures Continues(cli, s, r.session)
    ensures RanAs(role, args, NewEvents(s, r.session), r.out)
  {
    var switched := RunCommand(cli, s, ContextUse(role));
    if switched.out.err.Some? then
      Step(switched.session, Outcome("", Some(ContextSwitchFailed(role, switched.out.err.value))))
    else
      var r := RunCommand(cli, switched.session, args);
      ContinuesTrans(cli, s, switched.session, r.session);
      r
  }

  /** The runner's wrappers (BlueprintCreate ... StackDelete), one constructor each. */
  datatype Operation =
    | BlueprintCreate(composePath: string, repository: string)
    | BlueprintCreateGlobal(composePath: string, repository: string, branch: string)
    | BlueprintList
    | BlueprintGet(name: string)
    | BlueprintDelete(name: string)
    | EnvCreate(name: string)
    | EnvUse(name: string)
    | EnvGet(name: string)
    | StackCreate(blueprintId: string)
    | StackList
    | StackGet(name: string)
    | StackDelete(name: string)

  /** The role each wrapper runs under: deletion of blueprints as admin, global blueprints as deploy, everything else as user. */
  function RoleFor(op: Operation): (role: string)
    ensures role == RoleAdmin || role == RoleDeploy || role == RoleUser
    ensures role == RoleAdmin <==> op.BlueprintDelete?
    ensures role == RoleDeploy <==> op.BlueprintCreateGlobal?
  {
    match op
    case BlueprintDelete(_) => RoleAdmin
    case BlueprintCreateGlobal(_, _, _) => RoleDeploy
    case _ => RoleUser
  }

  /** A `--flag value` pair, left out when the value is empty. */
  function OptionalFlag(flag: string, value: string): Command {
    if value == "" then [] else [flag, value]
  }

  /**
   * The argument vector each wrapper passes to the CLI. Together with the role
   * it identifies the call: `blueprint create` carries `--repository` exactly
   * when a repository was given, `--branch` exactly when a branch was given,
   * and the repository flag first.
   */
  function ArgsFor(op: Operation): (cmd: Command)
    ensures Decode(RoleFor(op), cmd) == Some(op)
  {
    match op
    case BlueprintCreate(path, repository) =>
      var cmd := ["blueprint", "create", path] + OptionalFlag("--repository", repository);
      assert cmd[3..] == OptionalFlag("--repository", repository);
      cmd
    case BlueprintCreateGlobal(path, repository, branch) =>
      var cmd := ["blueprint", "create", path] + OptionalFlag("--repository", repository) + OptionalFlag("--branch", branch);
      assert cmd[3..] == OptionalFlag("--repository", repository) + OptionalFlag("--branch", branch);
      cmd
    case BlueprintList => ["blueprint", "list"]
    case BlueprintGet(name) => ["blueprint", "get", name]
    case BlueprintDelete(name) => ["blueprint", "delete", name]
    case EnvCreate(name) => ["env", "create", name]
    case EnvUse(name) => ["env", "use", name]
    case EnvGet(name) => ["env", "get", name]
    case StackCreate(id) => ["stack", "create", id]
    case StackList => ["stack", "list"]
    case StackGet(name) => ["stack", "get", name]
    case StackDelete(name) => ["stack", "delete", name]
  }

  /**
   * The flags that may follow `blueprint create <path>`: an optional non-empty
   * `--repository`, then an optional non-empty `--branch`, in that order.
   */
  function CreateFlags(flags: Command): (r: Option<(string, string)>) {
    if flags == [] then Some(("", ""))
    else if |flags| == 2 && flags[0] == "--repository" && flags[1] != "" then Some((flags[1], ""))
    else if |flags| == 2 && flags[0] == "--branch" && flags[1] != "" then Some(("", flags[1]))
    else if |flags| == 4 && flags[0] == "--repository" && flags[1] != "" && flags[2] == "--branch" && flags[3] != "" then
      Some((flags[1], flags[3]))
    else None
  }

  /** Reads back which wrapper issued a command line under a given role; None for anything no wrapper issues. */
  function Decode(role: string, cmd: Command): (op: Option<Operation>) {
    if |cmd| < 2 then None
    else if cmd[0] == "blueprint" && cmd[1] == "create" && |cmd| >= 3 then
      match CreateFlags(cmd[3..])
      case None => None
      case Some(flags) =>
        if role == RoleDeploy then Some(BlueprintCreateGlobal(cmd[2], flags.0, flags.1))
        else if role == RoleUser && flags.1 == "" then Some(BlueprintCreate(cmd[2], flags.0))
        else None
    else if |cmd| == 2 then
      if role != RoleUser then None
      else if cmd[0] == "blueprint" && cmd[1] == "list" then Some(BlueprintList)
      else if cmd[0] == "stack" && cmd[1] == "list" then Some(StackList)
      else None
    else if |cmd| == 3 then
      var (noun, verb, arg) := (cmd[0], cmd[1], cmd[2]);
      if noun == "blueprint" && verb == "delete" then (if role == RoleAdmin then Some(BlueprintDelete(arg)) else None)
      else if role != RoleUser then None
      else if noun == "blueprint" && verb == "get" then Some(BlueprintGet(arg))
      else if noun == "env" && verb == "create" then Some(EnvCreate(arg))
      else if noun == "env" && verb == "use" then Some(EnvUse(arg))
      else if noun == "env" && verb == "get" then Some(EnvGet(arg))
      else if noun == "stack" && verb == "create" then Some(StackCreate(arg))
      else if noun == "stack" && verb == "get" then Some(StackGet(arg))
      else if noun == "stack" && verb == "delete" then Some(StackDelete(arg))
      else None
    else None
  }

  /** Different wrapper calls never issue the same command line under the same role. */
  lemma WrappersDistinct(a: Operation, b: Operation)
    requires RoleFor(a) == RoleFor(b) && ArgsFor(a) == ArgsFor(b)
    ensures a == b
  {
  }

  /** A wrapper call: `RunAs(RoleFor(op), ArgsFor(op))`. */
  function Invoke<S(==)>(cli: Oracle<S>, s: Session<S>, op: Operation): (r: Step<S>)
    ensures Continues(cli, s, r.session)
    ensures RanAs(RoleFor(op), ArgsFor(op), NewEvents(s, r.session), r.out)
  {
    RunAs(cli, s, RoleFor(op), ArgsFor(op))
  }

  /** `EnvExists`: true exactly when `env get name`, run as user, succeeded. */
  function EnvExists<S(==)>(cli: Oracle<S>, s: Session<S>, name: string): (r: (Session<S>, bool))
    ensures Continues(cli, s, r.0)
    ensures var e := NewEvents(s, r.0);
      && 1 <= |e| <= 2 && e[0].cmd == ContextUse(RoleUser)
      && (|e| == 2 <==> e[0].Succeeded())
      && (|e| == 2 ==> e[1].cmd == ["env", "get", name])
      && (r.1 <==> |e| == 2 && e[1].Succeeded())
  {
    var step := Invoke(cli, s, EnvGet(name));
    (step.session, step.out.err.None?)
  }

  /** `GetCurrentContext`: one `context current`, its trimmed output on success, "" on failure. */
  function GetCurrentContext<S(==)>(cli: Oracle<S>, s: Session<S>): (r: Step<S>)
    ensures Continues(cli, s, r.session)
    ensures var e := NewEvents(s, r.session);
      && |e| == 1 && e[0].cmd == ["context", "current"]
      && (e[0].Succeeded() ==> r.out == Outcome(TrimSpace(e[0].reply.stdout), None))
      && (!e[0].Succeeded() ==> r.out == Outcome("", Some(FailureOf(e[0].reply))))
  {
    var step := RunCommand(cli, s, ["context", "current"]);
    if step.out.err.Some? then Step(step.session, Outcome("", step.out.err))
    else Step(step.session, Outcome(TrimSpace(step.out.output), None))
  }

  /** `EnsureEnv`: use the environment; if that fails, create it and, if creation worked, use it again. */
  function EnsureEnv<S(==)>(cli: Oracle<S>, s: Session<S>, name: string): (r: Done<S>)
    ensures Continues(cli, s, r.session)
  {
    var first := Invoke(cli, s, EnvUse(name));
    if first.out.err.None? then Done(first.session, None)
    else
      var created := Invoke(cli, first.session, EnvCreate(name));
      ContinuesTrans(cli, s, first.session, created.session);
      if created.out.err.Some? then Done(created.session, created.out.err)
      else
        var again := Invoke(cli, created.session, EnvUse(name));
        ContinuesTrans(cli, s, created.session, again.session);
        Done(again.session, again.out.err)
  }

  /**
   * The command trace of EnsureEnv: one RunAs call after another, each chosen
   * by the outcome of the call before. First `env use name`; when it succeeds,
   * nothing more and success. Otherwise `env create name`; when that fails
   * (its own command or the switch before it), nothing more and its error.
   * Otherwise `env use name` again, whose error is the result.
   */
  lemma EnsureEnvTrace<S>(cli: Oracle<S>, s: Session<S>, name: string)
    ensures var r := EnsureEnv(cli, s, name);
      EnvTrace(name, NewEvents(s, r.session), r.err)
  {
    var r := EnsureEnv(cli, s, name);
    var first := Invoke(cli, s, EnvUse(name));
    if first.out.err.None? {
      var e := NewEvents(s, r.session);
      assert e == NewEvents(s, first.session);
      assert e[..|e|] == e;
      EnvTraceIntro(name, e, r.err, |e|, |e|, first.out, first.out, first.out);
    } else {
      EnsureEnvTraceRetry(cli, s, name);
    }
  }

  /** EnsureEnvTrace once the first `env use` has failed. */
  lemma EnsureEnvTraceRetry<S>(cli: Oracle<S>, s: Session<S>, name: string)
    requires Invoke(cli, s, EnvUse(name)).out.err.Some?
    ensures var r := EnsureEnv(cli, s, name);
      EnvTrace(name, NewEvents(s, r.session), r.err)
  {
    var first := Invoke(cli, s, EnvUse(name));
    var created := Invoke(cli, first.session, EnvCreate(name));
    if created.out.err.Some? {
      CreateFailsTrace(cli, s, name, first, created);
    } else {
      var again := Invoke(cli, created.session, EnvUse(name));
      UseAgainTrace(cli, s, name, first, created, again);
    }
  }

  lemma CreateFailsTrace<S>(cli: Oracle<S>, s: Session<S>, name: string, first: Step<S>, created: Step<S>)
    requires Continues(cli, s, first.session) && Continues(cli, first.session, created.session)
    requires RanAs(RoleUser, ArgsFor(EnvUse(name)), NewEvents(s, first.session), first.out)
    requires RanAs(RoleUser, ArgsFor(EnvCreate(name)), NewEvents(first.session, created.session), created.out)
    requires first.out.err.Some? && created.out.err.Some?
    ensures EnvTrace(name, NewEvents(s, created.session), created.out.err)
  {
    var e1 := NewEvents(s, first.session);
    var e2 := NewEvents(first.session, created.session);
    ContinuesTrans(cli, s, first.session, created.session);
    var e := NewEvents(s, created.session);
    ConcatSlices(e1, e2, []);
    assert e == e1 + e2 + [];
    EnvTraceIntro(name, e, created.out.err, |e1|, |e|, first.out, created.out, created.out);
  }

  lemma UseAgainTrace<S>(cli: Oracle<S>, s: Session<S>, name: string, first: Step<S>, created: Step<S>, again: Step<S>)
    requires Continues(cli, s, first.session) && Continues(cli, first.session, created.session)
    requires Continues(cli, created.session, again.session)
    requires RanAs(RoleUser, ArgsFor(EnvUse(name)), NewEvents(s, first.session), first.out)
    requires RanAs(RoleUser, ArgsFor(EnvCreate(name)), NewEvents(first.session, created.session), created.out)
    requires RanAs(RoleUser, ArgsFor(EnvUse(name)), NewEvents(created.session, again.session), again.out)
    requires first.out.err.Some? && created.out.err.None?
    ensures EnvTrace(name, NewEvents(s, again.session), again.out.err)
  {
    var e1 := NewEvents(s, first.session);
    var e2 := NewEvents(first.session, created.session);
    var e3 := NewEvents(created.session, again.session);
    ContinuesTrans(cli, s, first.session, created.session);
    ContinuesTrans(cli, s, created.session, again.session);
    var e := NewEvents(s, again.session);
    assert e == e1 + e2 + e3;
    ConcatSlices(e1, e2, e3);
    EnvTraceIntro(name, e, again.out.err, |e1|, |e1| + |e2|, first.out, created.out, again.out);
  }

  /**
   * The trace rule of EnsureEnv: `e` splits at `i` and `j` into the events of
   * up to three RunAs calls as user, with outcomes `o1`, `o2`, `o3`, where each
   * call after the first happens exactly when the one before allows it.
   */
  ghost predicate EnvTraceAt(name: string, e: seq<Event>, err: Option<CliError>, i: nat, j: nat,
                             o1: Outcome, o2: Outcome, o3: Outcome)
  {
    && i <= j <= |e|
    && RanAs(RoleUser, ArgsFor(EnvUse(name)), e[..i], o1)
    && (o1.err.None? ==> i == |e| && err.None?)
    && (o1.err.Some? ==>
          && RanAs(RoleUser, ArgsFor(EnvCreate(name)), e[i..j], o2)
          && (o2.err.Some? ==> j == |e| && err == o2.err)
          && (o2.err.None? ==> RanAs(RoleUser, ArgsFor(EnvUse(name)), e[j..], o3) && err == o3.err))
  }

  /** Some split of `e` satisfies the trace rule of EnsureEnv. */
  ghost predicate EnvTrace(name: string, e: seq<Event>, err: Option<CliError>) {
    exists i: nat, j: nat, o1, o2, o3 :: EnvTraceAt(name, e, err, i, j, o1, o2, o3)
  }

  lemma ConcatSlices(e1: seq<Event>, e2: seq<Event>, e3: seq<Event>)
    ensures var e := e1 + e2 + e3;
      && e[..|e1|] == e1 && e[|e1|..|e1| + |e2|] == e2 && e[|e1| + |e2|..] == e3
      && (e3 == [] ==> e[|e1|..|e|] == e2)
  {
  }

  lemma EnvTraceIntro(name: string, e: seq<Event>, err: Option<CliError>, i: nat, j: nat,
                      o1: Outcome, o2: Outcome, o3: Outcome)
    requires EnvTraceAt(name, e, err, i, j, o1, o2, o3)
    ensures EnvTrace(name, e, err)
  {
  }
}
