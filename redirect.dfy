/**
 * Redirections of a simple command as an ordered plan of descriptor actions
 * (`open`, `dup2`, `close`), for the external-command child and for the `cd`
 * builtin, together with an abstract descriptor table that gives the plans
 * their meaning.
 */
module Redirect {
  import opened Wrappers
  import opened Words
  import opened CommandTree

  /** The `open` flags the shell uses. */
  datatype OpenFlag = ReadOnly | WriteOnly | Create | Truncate | Append

  type Mode = set<OpenFlag>

  /** O_RDONLY */
  const RDONLY: Mode := {ReadOnly}
  /** O_WRONLY | O_CREAT | O_TRUNC */
  const TRUNCATE: Mode := {WriteOnly, Create, Truncate}
  /** O_WRONLY | O_APPEND | O_CREAT */
  const APPEND_CREATE: Mode := {WriteOnly, Append, Create}
  /** O_WRONLY | O_APPEND */
  const APPEND_ONLY: Mode := {WriteOnly, Append}

  type StdFd = n: nat | n < 3

  /** The descriptor `dup2` copies or `close` closes: the one opened last, or standard output (fd 1). */
  datatype Source = LastOpened | Stdout

  datatype Action =
    | Open(path: string, mode: Mode)
    | Dup(src: Source, target: StdFd)
    | Close(fd: Source)

  /** `(io_flags & bit) == bit` */
  predicate HasFlag(flags: bv32, bit: bv32)
  {
    flags & bit == bit
  }

  /** Mode of the child's output file (cmd.c:116-120). */
  function OutMode(flags: bv32): (m: Mode)
    ensures WriteOnly in m && Create in m && ReadOnly !in m
    ensures Truncate in m <==> !HasFlag(flags, IO_OUT_APPEND)
    ensures Append in m <==> HasFlag(flags, IO_OUT_APPEND)
  {
    if !HasFlag(flags, IO_OUT_APPEND) then TRUNCATE else APPEND_CREATE
  }

  /** Mode of the output file named on `cd` (cmd.c:71-75): appending does not create. */
  function CdOutMode(flags: bv32): (m: Mode)
    ensures WriteOnly in m && ReadOnly !in m
    ensures Create in m <==> !HasFlag(flags, IO_OUT_APPEND)
    ensures Truncate in m <==> !HasFlag(flags, IO_OUT_APPEND)
    ensures Append in m <==> HasFlag(flags, IO_OUT_APPEND)
  {
    if !HasFlag(flags, IO_OUT_APPEND) then TRUNCATE else APPEND_ONLY
  }

  /** Mode of the error file, for the child and for `cd` alike (cmd.c:83-87, 138-142). */
  function ErrMode(flags: bv32): (m: Mode)
    ensures WriteOnly in m && Create in m && ReadOnly !in m
    ensures Truncate in m <==> !HasFlag(flags, IO_ERR_APPEND)
    ensures Append in m <==> HasFlag(flags, IO_ERR_APPEND)
  {
    if !HasFlag(flags, IO_ERR_APPEND) then TRUNCATE else APPEND_CREATE
  }

  /** Output and error name the same file, compared as raw strings. */
  predicate Collapses(s: SimpleCommand)
  {
    s.output.Some? && s.error.Some? && Raw(s.output.value) == Raw(s.error.value)
  }

  function OutRedirect(s: SimpleCommand): seq<Action>
  {
    if s.output.Some? then [Open(Raw(s.output.value), OutMode(s.ioFlags)), Dup(LastOpened, 1), Close(LastOpened)] else []
  }

  function InRedirect(s: SimpleCommand): seq<Action>
  {
    if s.input.Some? then [Open(Raw(s.input.value), RDONLY), Dup(LastOpened, 0), Close(LastOpened)] else []
  }

  /** With the collapse, stderr becomes a copy of fd 1 and nothing is opened or closed. */
  function ErrRedirect(s: SimpleCommand): seq<Action>
  {
    if s.error.None? then []
    else if Collapses(s) then [Dup(Stdout, 2)]
    else [Open(Raw(s.error.value), ErrMode(s.ioFlags)), Dup(LastOpened, 2), Close(LastOpened)]
  }

  /**
   * What the child does before `execvp`: output, then input, then error.
   * It never closes fd 1, and it copies fd 1 onto fd 2 exactly under the
   * out/err collapse.
   */
  function ChildPlan(s: SimpleCommand): (plan: seq<Action>)
    ensures Close(Stdout) !in plan
    ensures Dup(Stdout, 2) in plan <==> Collapses(s)
  {
    OutRedirect(s) + InRedirect(s) + ErrRedirect(s)
  }

  /**
   * What `cd <dir>` does with its redirections: the output file is opened and
   * closed, the error file is opened and left open, the input is ignored, and
   * no standard stream is rebound.
   */
  function CdPlan(s: SimpleCommand): (plan: seq<Action>)
    ensures forall i :: 0 <= i < |plan| ==> !plan[i].Dup?
    ensures Close(Stdout) !in plan
    ensures Close(LastOpened) in plan <==> s.output.Some?
  {
    (if s.output.Some? then [Open(Raw(s.output.value), CdOutMode(s.ioFlags)), Close(LastOpened)] else [])
    + (if s.error.Some? then [Open(Raw(s.error.value), ErrMode(s.ioFlags))] else [])
  }

  // ---------------------------------------------------------------------
  // The meaning of a plan: an abstract descriptor table

  /** What a descriptor refers to: inherited from the shell, the `id`-th file opened, or nothing once closed. */
  datatype Desc = Inherited(fd: nat) | File(id: nat, path: string, mode: Mode) | Closed

  /** Descriptors 0, 1, 2, the other open descriptors (newest last) and the number of opens so far. */
  datatype FdTable = FdTable(stdin: Desc, stdout: Desc, stderr: Desc, extra: seq<Desc>, opens: nat)

  const Initial: FdTable := FdTable(Inherited(0), Inherited(1), Inherited(2), [], 0)

  function Bind(t: FdTable, n: StdFd, d: Desc): FdTable
  {
    if n == 0 then t.(stdin := d) else if n == 1 then t.(stdout := d) else t.(stderr := d)
  }

  /**
   * One action. `dup2` of a descriptor that is not open and `close` with
   * nothing open change nothing; closing fd 1 leaves it unbound.
   */
  function Step(t: FdTable, a: Action): FdTable
  {
    match a
    case Open(p, m) => t.(extra := t.extra + [File(t.opens, p, m)], opens := t.opens + 1)
    case Dup(LastOpened, n) => if t.extra == [] then t else Bind(t, n, t.extra[|t.extra| - 1])
    case Dup(Stdout, n) => Bind(t, n, t.stdout)
    case Close(LastOpened) => if t.extra == [] then t else t.(extra := t.extra[..|t.extra| - 1])
    case Close(Stdout) => t.(stdout := Closed)
  }

  function Exec(t: FdTable, plan: seq<Action>): FdTable
    decreases |plan|
  {
    if plan == [] then t else Exec(Step(t, plan[0]), plan[1..])
  }

  /** The files a plan opens, with their modes, in order. */
  function Opened(plan: seq<Action>): seq<(string, Mode)>
    decreases |plan|
  {
    if plan == [] then []
    else (if plan[0].Open? then [(plan[0].path, plan[0].mode)] else []) + Opened(plan[1..])
  }

  function Target(w: Option<Word>, m: Mode): seq<(string, Mode)>
  {
    if w.Some? then [(Raw(w.value), m)] else []
  }

  predicate OpenedAs(d: Desc, w: Word, m: Mode)
  {
    d.File? && d.path == Raw(w) && d.mode == m
  }

  lemma {:induction false} ExecAppend(t: FdTable, a: seq<Action>, b: seq<Action>)
    ensures Exec(t, a + b) == Exec(Exec(t, a), b)
    decreases |a|
  {
    if a == [] {
      assert a + b == b;
    } else {
      assert (a + b)[0] == a[0];
      assert (a + b)[1..] == a[1..] + b;
      ExecAppend(Step(t, a[0]), a[1..], b);
    }
  }

  lemma {:induction false} OpenedAppend(a: seq<Action>, b: seq<Action>)
    ensures Opened(a + b) == Opened(a) + Opened(b)
  {
    if a == [] {
      assert a + b == b;
    } else {
      assert (a + b)[0] == a[0];
      assert (a + b)[1..] == a[1..] + b;
      OpenedAppend(a[1..], b);
    }
  }

  /** open, dup2 onto n, close: n now refers to a new description of the file and nothing else stays open. */
  lemma RedirectOnto(t: FdTable, p: string, m: Mode, n: StdFd)
    ensures Exec(t, [Open(p, m), Dup(LastOpened, n), Close(LastOpened)])
         == Bind(t, n, File(t.opens, p, m)).(opens := t.opens + 1)
  {
    var plan := [Open(p, m), Dup(LastOpened, n), Close(LastOpened)];
    var t1 := Step(t, Open(p, m));
    var t2 := Step(t1, Dup(LastOpened, n));
    assert t2.extra[..|t2.extra| - 1] == t.extra;
    assert plan[1..] == [Dup(LastOpened, n), Close(LastOpened)] && plan[1..][1..] == [Close(LastOpened)] && [Close(LastOpened)][1..] == [];
    calc {
      Exec(t, plan);
      Exec(t1, plan[1..]);
      Exec(t2, [Close(LastOpened)]);
      Exec(Step(t2, Close(LastOpened)), []);
    }
  }

  /**
   * After the child's redirections: each present target is bound to a new
   * description of its file with the right mode, stderr shares stdout's
   * description exactly when output and error name the same path, and no
   * descriptor opened for a redirection is left open.
   */
  lemma ChildBindings(s: SimpleCommand)
    ensures var t := Exec(Initial, ChildPlan(s));
      && (s.input.None? ==> t.stdin == Inherited(0))
      && (s.input.Some? ==> OpenedAs(t.stdin, s.input.value, RDONLY))
      && (s.output.None? ==> t.stdout == Inherited(1))
      && (s.output.Some? ==> OpenedAs(t.stdout, s.output.value, OutMode(s.ioFlags)))
      && (s.error.None? ==> t.stderr == Inherited(2))
      && (s.error.Some? && !Collapses(s) ==> OpenedAs(t.stderr, s.error.value, ErrMode(s.ioFlags)))
      && (t.stderr == t.stdout <==> Collapses(s))
      && t.extra == []
  {
    var o, i, e := OutRedirect(s), InRedirect(s), ErrRedirect(s);
    ExecAppend(Initial, o + i, e);
    ExecAppend(Initial, o, i);
    var t1 := Exec(Initial, o);
    if s.output.Some? {
      RedirectOnto(Initial, Raw(s.output.value), OutMode(s.ioFlags), 1);
      assert t1.stdout == File(0, Raw(s.output.value), OutMode(s.ioFlags)) && t1.opens == 1;
    } else {
      assert t1 == Initial;
    }
    var t2 := Exec(t1, i);
    if s.input.Some? {
      RedirectOnto(t1, Raw(s.input.value), RDONLY, 0);
    } else {
      assert t2 == t1;
    }
    assert t2.stdout == t1.stdout && t2.stderr == Inherited(2) && t2.extra == [];
    assert t2.opens >= t1.opens;
    var t3 := Exec(t2, e);
    if s.error.None? {
      assert t3 == t2;
    } else if Collapses(s) {
      assert e == [Dup(Stdout, 2)] && [Dup(Stdout, 2)][1..] == [];
      assert t3 == Bind(t2, 2, t2.stdout);
    } else {
      RedirectOnto(t2, Raw(s.error.value), ErrMode(s.ioFlags), 2);
      assert t3.stderr == File(t2.opens, Raw(s.error.value), ErrMode(s.ioFlags));
    }
  }

  /**
   * Each target is opened once in the child, with its mode; with the
   * collapse the error file is not opened a second time.
   */
  lemma ChildOpens(s: SimpleCommand)
    ensures Opened(ChildPlan(s))
         == Target(s.output, OutMode(s.ioFlags)) + Target(s.input, RDONLY)
            + (if Collapses(s) then [] else Target(s.error, ErrMode(s.ioFlags)))
  {
    OpenedAppend(OutRedirect(s) + InRedirect(s), ErrRedirect(s));
    OpenedAppend(OutRedirect(s), InRedirect(s));
    if s.output.Some? {
      GroupCloses(Raw(s.output.value), OutMode(s.ioFlags), 1);
    }
    if s.input.Some? {
      GroupCloses(Raw(s.input.value), RDONLY, 0);
    }
    if Collapses(s) {
      assert [Dup(Stdout, 2)][1..] == [];
    } else if s.error.Some? {
      GroupCloses(Raw(s.error.value), ErrMode(s.ioFlags), 2);
    }
  }

  /**
   * `cd` with a directory: the standard streams are untouched, the output file
   * is closed again and the error file stays open (the only descriptor left).
   */
  lemma CdBindings(s: SimpleCommand)
    ensures var t := Exec(Initial, CdPlan(s));
      && t.stdin == Inherited(0) && t.stdout == Inherited(1) && t.stderr == Inherited(2)
      && |t.extra| == (if s.error.Some? then 1 else 0)
      && (s.error.Some? ==> OpenedAs(t.extra[0], s.error.value, ErrMode(s.ioFlags)))
  {
    var o := if s.output.Some? then [Open(Raw(s.output.value), CdOutMode(s.ioFlags)), Close(LastOpened)] else [];
    var e := if s.error.Some? then [Open(Raw(s.error.value), ErrMode(s.ioFlags))] else [];
    ExecAppend(Initial, o, e);
    var t1 := Exec(Initial, o);
    if s.output.Some? {
      assert o[1..] == [Close(LastOpened)] && [Close(LastOpened)][1..] == [];
      assert t1.extra == [] && t1.stdin == Inherited(0) && t1.stdout == Inherited(1) && t1.stderr == Inherited(2);
    }
    if s.error.Some? {
      assert e[1..] == [];
    }
  }

  /** The `cd` path opens output then error, with their modes and no collapse, even when they are the same path. */
  lemma CdOpens(s: SimpleCommand)
    ensures Opened(CdPlan(s)) == Target(s.output, CdOutMode(s.ioFlags)) + Target(s.error, ErrMode(s.ioFlags))
  {
    var o := if s.output.Some? then [Open(Raw(s.output.value), CdOutMode(s.ioFlags)), Close(LastOpened)] else [];
    var e := if s.error.Some? then [Open(Raw(s.error.value), ErrMode(s.ioFlags))] else [];
    OpenedAppend(o, e);
    if s.output.Some? {
      assert o[1..] == [Close(LastOpened)] && [Close(LastOpened)][1..] == [];
    }
    if s.error.Some? {
      assert e[1..] == [];
    }
  }

  /**
   * `>>` creates a missing output file when a program is run but not on
   * `cd`; `>` creates it in both, as the first file each plan opens.
   */
  lemma AppendCreatesOnlyForChild(s: SimpleCommand)
    requires s.output.Some?
    ensures |Opened(ChildPlan(s))| > 0 && |Opened(CdPlan(s))| > 0
    ensures Opened(ChildPlan(s))[0].0 == Raw(s.output.value) && Create in Opened(ChildPlan(s))[0].1
    ensures Opened(CdPlan(s))[0].0 == Raw(s.output.value)
    ensures Create in Opened(CdPlan(s))[0].1 <==> !HasFlag(s.ioFlags, IO_OUT_APPEND)
  {
    ChildOpens(s);
    CdOpens(s);
  }

  /** The child closes exactly what it opened, one descriptor at a time, and never closes fd 1. */
  lemma ChildClosesWhatItOpens(s: SimpleCommand)
    ensures Count(ChildPlan(s), Close(LastOpened)) == |Opened(ChildPlan(s))|
    ensures Count(ChildPlan(s), Close(Stdout)) == 0
  {
    var o, i, e := OutRedirect(s), InRedirect(s), ErrRedirect(s);
    OpenedAppend(o + i, e);
    OpenedAppend(o, i);
    CountAppend(o + i, e, Close(LastOpened));
    CountAppend(o, i, Close(LastOpened));
    CountAppend(o + i, e, Close(Stdout));
    CountAppend(o, i, Close(Stdout));
    if s.output.Some? {
      GroupCloses(Raw(s.output.value), OutMode(s.ioFlags), 1);
    }
    if s.input.Some? {
      GroupCloses(Raw(s.input.value), RDONLY, 0);
    }
    if Collapses(s) {
      assert [Dup(Stdout, 2)][1..] == [];
    } else if s.error.Some? {
      GroupCloses(Raw(s.error.value), ErrMode(s.ioFlags), 2);
    }
  }

  /** How many times an action occurs in a plan. */
  function Count(plan: seq<Action>, a: Action): nat
    decreases |plan|
  {
    if plan == [] then 0 else (if plan[0] == a then 1 else 0) + Count(plan[1..], a)
  }

  lemma {:induction false} CountAppend(p: seq<Action>, q: seq<Action>, a: Action)
    ensures Count(p + q, a) == Count(p, a) + Count(q, a)
    decreases |p|
  {
    if p == [] {
      assert p + q == q;
    } else {
      assert (p + q)[0] == p[0];
      assert (p + q)[1..] == p[1..] + q;
      CountAppend(p[1..], q, a);
    }
  }

  /** An open, dup2, close group opens its one file and closes one descriptor, never fd 1. */
  lemma GroupCloses(p: string, m: Mode, n: StdFd)
    ensures var g := [Open(p, m), Dup(LastOpened, n), Close(LastOpened)];
      Count(g, Close(LastOpened)) == 1 && Opened(g) == [(p, m)] && Count(g, Close(Stdout)) == 0
  {
    var g := [Open(p, m), Dup(LastOpened, n), Close(LastOpened)];
    var tail := [Dup(LastOpened, n), Close(LastOpened)];
    assert g[1..] == tail && tail[1..] == [Close(LastOpened)] && [Close(LastOpened)][1..] == [];
    assert Count([Close(LastOpened)], Close(LastOpened)) == 1 && Count([Close(LastOpened)], Close(Stdout)) == 0;
    assert Count(tail, Close(LastOpened)) == 1 && Count(tail, Close(Stdout)) == 0;
    assert Opened([Close(LastOpened)]) == [] && Opened(tail) == [];
  }
}
