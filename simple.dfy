/**
 * The simple-command executor `parse_simple` with the builtins `shell_exit`
 * and `shell_cd`. The operating system is abstracted into a World: the exit
 * status of a program the child executes, and the outcome of `chdir`.
 */
module SimpleExec {
  import opened Wrappers
  import opened Words
  import opened CommandTree
  import opened Redirect

  /** The state of the shell process that simple commands change. */
  datatype State = State(env: Env, cwd: string)

  /** A status a normally terminated child reports through WEXITSTATUS. */
  type ExitCode = n: int | 0 <= n < 256

  /** What the forked child is: the program, its argv, its redirections and the environment it inherits. */
  datatype Invocation = Invocation(file: string, argv: seq<string>, plan: seq<Action>, env: Env, cwd: string)

  /**
   * run: the exit status of an invocation; chdir: the new working directory
   * for (cwd, dir), or None when `chdir` fails; uninit: the value an
   * unassigned `ret` happens to hold.
   */
  datatype World = World(
    run: Invocation -> ExitCode,
    chdir: (string, string) -> Option<string>,
    uninit: int)

  /** What one simple command did. */
  datatype Effect =
    | Exit
    | CdNoArgs
    | Cd(plan: seq<Action>, dir: string, result: Option<string>)
    | Assign(name: string, value: string)
    | Spawn(inv: Invocation)

  datatype Outcome = Outcome(status: int, state: State, effect: Effect)

  /** The four ways `parse_simple` can treat a command, in the order it tries them. */
  datatype Kind = ExitBuiltin | CdBuiltin | Assignment | External

  function Classify(s: SimpleCommand, env: Env): (k: Kind)
    ensures k == ExitBuiltin <==> Raw(s.verb) == "exit"
    ensures k == CdBuiltin <==> Raw(s.verb) == "cd"
    ensures k == Assignment <==> Raw(s.verb) != "exit" && Raw(s.verb) != "cd" && '=' in Resolve(s.verb, env)
    ensures k == External <==> Raw(s.verb) != "exit" && Raw(s.verb) != "cd" && '=' !in Resolve(s.verb, env)
  {
    if Raw(s.verb) == "exit" then ExitBuiltin
    else if Raw(s.verb) == "cd" then CdBuiltin
    else if '=' in Resolve(s.verb, env) then Assignment
    else External
  }

  /** `shell_exit`: a status no child can report. */
  function ShellExit(): (r: int)
    ensures r < 0
  {
    SHELL_EXIT
  }

  /**
   * One call of `chdir`: the `int` it returns, 0 on success and -1 on
   * failure, and the working directory it leaves, None when it failed.
   */
  function Chdir(w: World, cwd: string, dir: string): (r: (int, Option<string>))
    ensures r.0 == 0 || r.0 == -1
    ensures r.0 == 0 <==> w.chdir(cwd, dir).Some?
    ensures r.1 == w.chdir(cwd, dir)
  {
    var moved := w.chdir(cwd, dir);
    (if moved.Some? then 0 else -1, moved)
  }

  /**
   * `shell_cd`: its one `chdir` call, whose result is converted to `bool`,
   * so true means the change failed; the new directory comes with it.
   */
  function ShellCd(dir: Word, cwd: string, w: World): (r: (bool, Option<string>))
    ensures r.0 <==> r.1.None?
    ensures r.1 == w.chdir(cwd, Raw(dir))
  {
    var c := Chdir(w, cwd, Raw(dir));
    (c.0 != 0, c.1)
  }

  /** The `bool` of `shell_cd` returned as the `int` status. */
  function BoolToInt(b: bool): (n: int)
    ensures n == 0 || n == 1
    ensures n == 1 <==> b
  {
    if b then 1 else 0
  }

  /** `setenv(name, value, 1)`; POSIX refuses an empty name or one containing '='. */
  function SetEnv(env: Env, name: string, value: string): (e: Env)
    ensures name != "" && '=' !in name ==> name in e && e[name] == value
    ensures name == "" || '=' in name ==> e == env
    ensures forall k :: k != name ==> (k in e <==> k in env)
    ensures forall k :: k != name && k in env ==> e[k] == env[k]
  {
    if name == "" || '=' in name then env else env[name := value]
  }

  /** `get_argv`: the resolved verb followed by the resolved parameters. */
  function Argv(s: SimpleCommand, env: Env): (argv: seq<string>)
    ensures |argv| == 1 + |s.params|
    ensures argv[0] == Resolve(s.verb, env)
    ensures forall i :: 0 <= i < |s.params| ==> argv[i + 1] == Resolve(s.params[i], env)
  {
    [Resolve(s.verb, env)] + ResolveAll(s.params, env)
  }

  /**
   * `parse_simple`. `level` and `father` are received and not used. The
   * status is the one its recorded effect yields, and only `cd` and an
   * assignment change the shell's state.
   */
  function ParseSimple(s: SimpleCommand, st: State, w: World, level: int, father: Option<Command>): (o: Outcome)
    ensures o.status == StatusOf(o.effect, w)
    ensures !o.effect.Cd? && !o.effect.Assign? ==> o.state == st
  {
    match Classify(s, st.env)
    case ExitBuiltin =>
      Outcome(ShellExit(), st, Exit)
    case CdBuiltin =>
      if s.params == [] then
        Outcome(0, st, CdNoArgs)
      else
        var dir := s.params[0];
        var cd := ShellCd(dir, st.cwd, w);
        Outcome(BoolToInt(cd.0), if cd.1.Some? then st.(cwd := cd.1.value) else st,
                Cd(CdPlan(s), Raw(dir), cd.1))
    case Assignment =>
      var name := Raw(s.verb);
      var value := Resolve(AfterAssign(s.verb), st.env);
      Outcome(0, st.(env := SetEnv(st.env, name, value)), Assign(name, value))
    case External =>
      var inv := Invocation(Raw(s.verb), Argv(s, st.env), ChildPlan(s), st.env, st.cwd);
      Outcome(w.run(inv), st, Spawn(inv))
  }

  // ---------------------------------------------------------------------
  // What an effect means: the status it yields and the state change it makes

  function StatusOf(e: Effect, w: World): int
  {
    match e
    case Exit => SHELL_EXIT
    case CdNoArgs => 0
    case Cd(_, _, result) => if result.Some? then 0 else 1
    case Assign(_, _) => 0
    case Spawn(inv) => w.run(inv)
  }

  /** Only `cd` and assignments change the shell; a child cannot. */
  function ApplyEffect(st: State, e: Effect): State
  {
    match e
    case Cd(_, _, result) => if result.Some? then st.(cwd := result.value) else st
    case Assign(name, value) => st.(env := SetEnv(st.env, name, value))
    case _ => st
  }

  /** The recorded effect accounts for the whole outcome: its status and its new state. */
  lemma EffectExplainsOutcome(s: SimpleCommand, st: State, w: World, level: int, father: Option<Command>)
    ensures var o := ParseSimple(s, st, w, level, father);
      StatusOf(o.effect, w) == o.status && ApplyEffect(st, o.effect) == o.state
  {
  }

  /** `exit` wins over everything else: no process, no redirection, nothing changed. */
  lemma ExitFirst(s: SimpleCommand, st: State, w: World, level: int, father: Option<Command>)
    requires Raw(s.verb) == "exit"
    ensures ParseSimple(s, st, w, level, father) == Outcome(SHELL_EXIT, st, Exit)
  {
  }

  /** `cd` without a directory succeeds and does nothing, whatever its redirections. */
  lemma CdWithoutDirectory(s: SimpleCommand, st: State, w: World, level: int, father: Option<Command>)
    requires Raw(s.verb) == "cd" && s.params == []
    ensures ParseSimple(s, st, w, level, father) == Outcome(0, st, CdNoArgs)
  {
  }

  /**
   * `cd dir` yields 0 when `chdir` succeeds and 1 when it fails; only a
   * successful change moves the working directory, the environment is kept,
   * and the recorded redirections are those of the `cd` path.
   */
  lemma CdWithDirectory(s: SimpleCommand, st: State, w: World, level: int, father: Option<Command>)
    requires Raw(s.verb) == "cd" && s.params != []
    ensures var o := ParseSimple(s, st, w, level, father);
      var result := w.chdir(st.cwd, Raw(s.params[0]));
      && (o.status == 0 <==> result.Some?)
      && (o.status == 1 <==> result.None?)
      && o.state.env == st.env
      && (result.Some? ==> o.state.cwd == result.value)
      && (result.None? ==> o.state == st)
      && o.effect == Cd(CdPlan(s), Raw(s.params[0]), result)
  {
  }

  /**
   * An assignment spawns nothing and returns 0; it sets the raw name of the
   * verb to the resolution, in the current environment, of the parts after
   * the `=`, and every other variable and the directory stay as they were.
   */
  lemma AssignmentSetsOnlyName(s: SimpleCommand, st: State, w: World, level: int, father: Option<Command>)
    requires Raw(s.verb) != "exit" && Raw(s.verb) != "cd" && '=' in Resolve(s.verb, st.env)
    ensures var o := ParseSimple(s, st, w, level, father);
      var name := Raw(s.verb);
      && o.status == 0
      && !o.effect.Spawn?
      && o.state.cwd == st.cwd
      && (name != "" && '=' !in name ==>
            name in o.state.env && o.state.env[name] == Resolve(AfterAssign(s.verb), st.env))
      && (forall k :: k != name ==> (k in o.state.env <==> k in st.env))
      && (forall k :: k != name && k in st.env ==> o.state.env[k] == st.env[k])
  {
  }

  /**
   * Otherwise one child is spawned: it executes the raw verb with the
   * resolved argv, applies the child redirections, inherits the environment
   * and directory, and its exit status is the result; the shell is unchanged.
   */
  lemma ExternalSpawnsChild(s: SimpleCommand, st: State, w: World, level: int, father: Option<Command>)
    requires Raw(s.verb) != "exit" && Raw(s.verb) != "cd" && '=' !in Resolve(s.verb, st.env)
    ensures var o := ParseSimple(s, st, w, level, father);
      && o.effect.Spawn?
      && o.effect.inv == Invocation(Raw(s.verb), Argv(s, st.env), ChildPlan(s), st.env, st.cwd)
      && o.status == w.run(o.effect.inv)
      && 0 <= o.status < 256
      && o.state == st
  {
  }

  /** Only `exit` produces the terminate status; every other simple command yields 0..255. */
  lemma TerminateOnlyByExit(s: SimpleCommand, st: State, w: World, level: int, father: Option<Command>)
    ensures var o := ParseSimple(s, st, w, level, father);
      && (o.status == SHELL_EXIT <==> o.effect == Exit)
      && (o.effect != Exit ==> 0 <= o.status < 256)
  {
  }

  /** `A=x` followed by `B=$A` (three parts each, as the parser splits them) leaves B set to x. */
  lemma {:induction false} AssignmentChain(st: State, w: World)
    ensures var a := SimpleCommand([Part("A", false), Part("=", false), Part("x", false)], [], None, None, None, 0);
      var b := SimpleCommand([Part("B", false), Part("=", false), Part("A", true)], [], None, None, None, 0);
      var o1 := ParseSimple(a, st, w, 0, None);
      var o2 := ParseSimple(b, o1.state, w, 0, None);
      o1.status == 0 && o2.status == 0 && "B" in o2.state.env && o2.state.env["B"] == "x"
  {
    var av := [Part("A", false), Part("=", false), Part("x", false)];
    var bv := [Part("B", false), Part("=", false), Part("A", true)];
    ResolveAppend(av[..2], av[2..], st.env);
    assert av == av[..2] + av[2..];
    assert Resolve(av[..2], st.env) == "A=" by {
      assert av[..2][1..][1..] == [];
    }
    assert av[2..] == [Part("x", false)] && [Part("x", false)][1..] == [];
    var env1 := SetEnv(st.env, "A", "x");
    assert bv[2..] == [Part("A", true)];
    VariableResolves("A", env1);
    ResolveAppend(bv[..2], bv[2..], env1);
    assert bv == bv[..2] + bv[2..];
    assert Resolve(bv[..2], env1) == "B=" by {
      assert bv[..2][1..][1..] == [];
    }
    assert '=' in Resolve(bv, env1) by {
      assert Resolve(bv, env1)[1] == '=';
    }
    assert '=' in Resolve(av, st.env) by {
      assert Resolve(av, st.env)[1] == '=';
    }
  }
}
