/**
 * One concrete CLI for the runner's oracle, holding the behaviour the harness
 * assumes of the real `lissto` binary: switching to a configured context
 * succeeds, `env use` fails when the environment does not exist, and
 * `env create` adds a missing environment. Under it, EnsureEnv does what its
 * documentation says: it creates the environment if it does not exist and
 * selects it.
 */
module IdealCli {
  import opened Wrappers
  import opened Text
  import opened Cli

  /** The configured contexts, the active one, the existing environments and the selected one. */
  datatype World = World(contexts: set<string>, context: string, envs: set<string>, current: Option<string>)

  function Ok(stdout: string): Process {
    Process(stdout, "", Exited)
  }

  function Refused(message: string): Process {
    Process("", "Error: " + message + "\n", Failed("exit status 1"))
  }

  /** The CLI's reaction to the commands EnsureEnv, EnvExists and GetCurrentContext issue. */
  function Respond(w: World, cmd: Command): (World, Process) {
    if cmd == ["context", "current"] then (w, Ok(w.context + "\n"))
    else if |cmd| != 3 then (w, Refused("unknown command"))
    else if cmd[0] == "context" && cmd[1] == "use" then
      if cmd[2] in w.contexts then (w.(context := cmd[2]), Ok("Switched to context " + cmd[2] + "\n"))
      else (w, Refused("context not found"))
    else if cmd[0] == "env" && cmd[1] == "use" then
      if cmd[2] in w.envs then (w.(current := Some(cmd[2])), Ok("Using env " + cmd[2] + "\n"))
      else (w, Refused("env not found"))
    else if cmd[0] == "env" && cmd[1] == "create" then
      if cmd[2] !in w.envs then (w.(envs := w.envs + {cmd[2]}), Ok("Created env " + cmd[2] + "\n"))
      else (w, Refused("env already exists"))
    else if cmd[0] == "env" && cmd[1] == "get" then
      if cmd[2] in w.envs then (w, Ok(cmd[2] + "\n")) else (w, Refused("env not found"))
    else (w, Refused("unknown command"))
  }

  lemma RespondContextUse(w: World, role: string)
    requires role in w.contexts
    ensures Respond(w, ContextUse(role)) == (w.(context := role), Ok("Switched to context " + role + "\n"))
  {
  }

  lemma RespondContextCurrent(w: World)
    ensures Respond(w, ["context", "current"]) == (w, Ok(w.context + "\n"))
  {
  }

  lemma RespondEnvUse(w: World, name: string)
    ensures Respond(w, ArgsFor(EnvUse(name))) ==
      if name in w.envs then (w.(current := Some(name)), Ok("Using env " + name + "\n"))
      else (w, Refused("env not found"))
  {
    assert ArgsFor(EnvUse(name)) != ["context", "current"];
  }

  lemma RespondEnvCreate(w: World, name: string)
    ensures Respond(w, ArgsFor(EnvCreate(name))) ==
      if name !in w.envs then (w.(envs := w.envs + {name}), Ok("Created env " + name + "\n"))
      else (w, Refused("env already exists"))
  {
    assert ArgsFor(EnvCreate(name)) != ["context", "current"];
  }

  lemma RespondEnvGet(w: World, name: string)
    ensures Respond(w, ArgsFor(EnvGet(name))) ==
      if name in w.envs then (w, Ok(name + "\n")) else (w, Refused("env not found"))
  {
    assert ArgsFor(EnvGet(name)) != ["context", "current"];
  }

  /** A user-run command whose context switch succeeds: the oracle answers the command in the switched world. */
  lemma InvokeAsUser(w: World, log: seq<Event>, op: Operation)
    requires RoleFor(op) == RoleUser && RoleUser in w.contexts
    ensures var s := Session(w, log);
      var r := Invoke(Respond, s, op);
      var w' := w.(context := RoleUser);
      && r.session.world == Respond(w', ArgsFor(op)).0
      && r.out == OutcomeOf(Respond(w', ArgsFor(op)).1)
  {
    var s := Session(w, log);
    RespondContextUse(w, RoleUser);
    var switched := RunCommand(Respond, s, ContextUse(RoleUser));
    assert switched.session.world == w.(context := RoleUser);
  }

  /**
   * EnsureEnv creates the environment if it does not exist and selects it: it
   * succeeds, the environment exists and is selected afterwards, no other
   * environment appears, and `env create` was issued exactly when it was missing.
   */
  lemma EnsureEnvSelects(w: World, log: seq<Event>, name: string)
    requires RoleUser in w.contexts
    ensures var s := Session(w, log);
      var r := EnsureEnv(Respond, s, name);
      var e := NewEvents(s, r.session);
      && r.err.None?
      && r.session.world.envs == w.envs + {name}
      && r.session.world.current == Some(name)
      && r.session.world.context == RoleUser
      && ((exists i :: 0 <= i < |e| && e[i].cmd == ArgsFor(EnvCreate(name))) <==> name !in w.envs)
  {
    var s := Session(w, log);
    var e := NewEvents(s, EnsureEnv(Respond, s, name).session);
    if name in w.envs {
      EnsureExistingEnv(w, log, name);
    } else {
      EnsureMissingEnv(w, log, name);
      assert 0 <= 3 < |e| && e[3].cmd == ArgsFor(EnvCreate(name));
    }
  }

  lemma EnsureExistingEnv(w: World, log: seq<Event>, name: string)
    requires RoleUser in w.contexts && name in w.envs
    ensures var s := Session(w, log);
      var r := EnsureEnv(Respond, s, name);
      && |NewEvents(s, r.session)| == 2
      && (forall i :: 0 <= i < |NewEvents(s, r.session)| ==> NewEvents(s, r.session)[i].cmd != ArgsFor(EnvCreate(name)))
      && r.err.None?
      && r.session.world == w.(context := RoleUser, current := Some(name))
  {
    var s := Session(w, log);
    var w1 := w.(context := RoleUser);
    var first := Invoke(Respond, s, EnvUse(name));
    InvokeAsUser(w, log, EnvUse(name));
    RespondEnvUse(w1, name);
    assert first.out.err.None?;
    var e := NewEvents(s, first.session);
    assert e[0].cmd == ContextUse(RoleUser) && e[1].cmd == ArgsFor(EnvUse(name));
    assert e[0].cmd[0] != ArgsFor(EnvCreate(name))[0];
    assert e[1].cmd[1] != ArgsFor(EnvCreate(name))[1];
  }

  lemma EnsureMissingEnv(w: World, log: seq<Event>, name: string)
    requires RoleUser in w.contexts && name !in w.envs
    ensures var s := Session(w, log);
      var r := EnsureEnv(Respond, s, name);
      && |NewEvents(s, r.session)| == 6
      && NewEvents(s, r.session)[3].cmd == ArgsFor(EnvCreate(name))
      && r.err.None?
      && r.session.world == w.(context := RoleUser, envs := w.envs + {name}, current := Some(name))
  {
    var s := Session(w, log);
    var w1 := w.(context := RoleUser);
    var first := Invoke(Respond, s, EnvUse(name));
    InvokeAsUser(w, log, EnvUse(name));
    RespondEnvUse(w1, name);
    assert first.session.world == w1;
    var created := Invoke(Respond, first.session, EnvCreate(name));
    InvokeAsUser(w1, first.session.log, EnvCreate(name));
    RespondEnvCreate(w1, name);
    var w2 := w1.(envs := w.envs + {name});
    assert created.session.world == w2;
    var again := Invoke(Respond, created.session, EnvUse(name));
    InvokeAsUser(w2, created.session.log, EnvUse(name));
    RespondEnvUse(w2, name);
    assert w2.(context := RoleUser) == w2;
    assert again.session.world == w2.(current := Some(name));
    ContinuesTrans(Respond, s, first.session, created.session);
    ContinuesTrans(Respond, s, created.session, again.session);
  }

  /** EnvExists reports whether the environment exists. */
  lemma EnvExistsReports(w: World, log: seq<Event>, name: string)
    requires RoleUser in w.contexts
    ensures EnvExists(Respond, Session(w, log), name).1 <==> name in w.envs
  {
    InvokeAsUser(w, log, EnvGet(name));
    RespondEnvGet(w.(context := RoleUser), name);
  }

  /** After switching to a configured context, GetCurrentContext reports it. */
  lemma CurrentContextAfterSwitch(w: World, log: seq<Event>, role: string)
    requires role in w.contexts && NoOuterSpace(role)
    ensures var switched := RunCommand(Respond, Session(w, log), ContextUse(role));
      switched.out.err.None? && GetCurrentContext(Respond, switched.session).out == Outcome(role, None)
  {
    RespondContextUse(w, role);
    var switched := RunCommand(Respond, Session(w, log), ContextUse(role));
    assert switched.session.world == w.(context := role);
    RespondContextCurrent(w.(context := role));
    TrimLineEnd(role);
  }

  lemma TrimLineEnd(s: string)
    requires NoOuterSpace(s)
    ensures TrimSpace(s + "\n") == s
  {
    assert s + "\n" == [] + s + "\n";
    TrimSpaceUnique(s + "\n", [], s, "\n");
  }
}
