/**
 * The shell process as an object: its environment and working directory are
 * fields that the builtins update in place, as `setenv` and `chdir` do, and
 * every simple command run is appended to a log. The methods follow the
 * statements of `parse_simple` and `parse_command` one by one and are proved
 * to do what the functions of SimpleExec and Executor describe.
 */
module Interpreter {
  import opened Wrappers
  import opened Words
  import opened CommandTree
  import opened Redirect
  import opened SimpleExec
  import opened Executor

  class Shell {
    var env: Env
    var cwd: string
    /** The simple commands run so far, with what each did. */
    var log: seq<Ran>

    constructor (env0: Env, cwd0: string)
      ensures env == env0 && cwd == cwd0 && log == []
    {
      env, cwd, log := env0, cwd0, [];
    }

    function Current(): State
      reads this
    {
      State(env, cwd)
    }

    /** `parse_simple`, statement by statement. */
    method ExecuteSimple(s: SimpleCommand, w: World, level: int, father: Option<Command>) returns (ret: int)
      modifies this
      ensures var o := ParseSimple(s, old(Current()), w, level, father);
        ret == o.status && Current() == o.state && log == old(log) + [Ran(s, o.effect)]
    {
      if Raw(s.verb) == "exit" {
        ret := ShellExit();
        log := log + [Ran(s, Exit)];
        return;
      }

      if Raw(s.verb) == "cd" {
        if s.params == [] {
          ret := 0;
          log := log + [Ran(s, CdNoArgs)];
          return;
        }
        var plan: seq<Action> := [];
        if s.output.Some? {
          plan := plan + [Open(Raw(s.output.value), CdOutMode(s.ioFlags))];
          plan := plan + [Close(LastOpened)];
        }
        ghost var outPart := plan;
        if s.error.Some? {
          plan := plan + [Open(Raw(s.error.value), ErrMode(s.ioFlags))];
        }
        assert plan == CdPlan(s) by {
          assert outPart == if s.output.Some? then [Open(Raw(s.output.value), CdOutMode(s.ioFlags)), Close(LastOpened)] else [];
        }
        var dir := s.params[0];
        var cd := ShellCd(dir, cwd, w);
        var failed, result := cd.0, cd.1;
        if result.Some? {
          cwd := result.value;
        }
        ret := BoolToInt(failed);
        log := log + [Ran(s, Cd(plan, Raw(dir), result))];
        return;
      }

      var command := Resolve(s.verb, env);
      if '=' in command {
        var word := Resolve(AfterAssign(s.verb), env);
        env := SetEnv(env, Raw(s.verb), word);
        ret := 0;
        log := log + [Ran(s, Assign(Raw(s.verb), word))];
        return;
      }

      var argv := Argv(s, env);
      // the child's redirections, in the order the child performs them
      var plan: seq<Action> := [];
      if s.output.Some? {
        plan := plan + [Open(Raw(s.output.value), OutMode(s.ioFlags))];
        plan := plan + [Dup(LastOpened, 1)];
        plan := plan + [Close(LastOpened)];
      }
      assert plan == OutRedirect(s);
      if s.input.Some? {
        plan := plan + [Open(Raw(s.input.value), RDONLY)];
        plan := plan + [Dup(LastOpened, 0)];
        plan := plan + [Close(LastOpened)];
      }
      assert plan == OutRedirect(s) + InRedirect(s);
      if s.error.Some? {
        if s.output.Some? && Raw(s.output.value) == Raw(s.error.value) {
          plan := plan + [Dup(Stdout, 2)];
        } else {
          plan := plan + [Open(Raw(s.error.value), ErrMode(s.ioFlags))];
          plan := plan + [Dup(LastOpened, 2)];
          plan := plan + [Close(LastOpened)];
        }
      }
      assert plan == ChildPlan(s);
      var inv := Invocation(Raw(s.verb), argv, plan, env, cwd);
      ret := w.run(inv);
      log := log + [Ran(s, Spawn(inv))];
    }

    /** `parse_command`, case by case. */
    method Execute(c: Command, w: World, level: int, father: Option<Command>) returns (ret: int)
      modifies this
      ensures var r := ParseCommand(c, old(Current()), w, level, father);
        ret == r.status && Current() == r.state && log == old(log) + r.trace
      decreases c
    {
      if c.Simple? {
        ret := ExecuteSimple(c.scmd, w, level, father);
        return;
      }

      ghost var st0 := Current();
      match c.op
      case Sequential =>
        var _ := Execute(c.cmd1, w, level + 1, Some(c));
        ghost var r1 := ParseCommand(c.cmd1, st0, w, level + 1, Some(c));
        ret := Execute(c.cmd2, w, level + 1, father);
        assert ParseCommand(c, st0, w, level, father)
            == Then(r1, ParseCommand(c.cmd2, r1.state, w, level + 1, father));
      case Parallel =>
        ret := w.uninit;
      case CondNZero =>
        ret := Execute(c.cmd1, w, level + 1, Some(c));
        if ret != 0 {
          ret := Execute(c.cmd2, w, level + 1, Some(c));
        }
      case CondZero =>
        ret := Execute(c.cmd1, w, level + 1, Some(c));
        if ret == 0 {
          ret := Execute(c.cmd2, w, level + 1, Some(c));
        }
      case Pipe =>
        ret := w.uninit;
      case Unknown(_) =>
        ret := SHELL_EXIT;
    }
  }

  /** A client: `A=x` then `B=$A` run on the object leaves B set to x and the directory where it was. */
  method AssignTwice(w: World) returns (sh: Shell)
    ensures "B" in sh.env && sh.env["B"] == "x"
    ensures sh.cwd == "/" && |sh.log| == 2
  {
    sh := new Shell(map[], "/");
    var a := SimpleCommand([Part("A", false), Part("=", false), Part("x", false)], [], None, None, None, 0);
    var b := SimpleCommand([Part("B", false), Part("=", false), Part("A", true)], [], None, None, None, 0);
    AssignmentChain(State(map[], "/"), w);
    var o1 := ParseSimple(a, State(map[], "/"), w, 0, None);
    AssignmentSetsOnlyName(b, o1.state, w, 0, None);
    var r1 := sh.ExecuteSimple(a, w, 0, None);
    var r2 := sh.ExecuteSimple(b, w, 0, None);
  }
}
