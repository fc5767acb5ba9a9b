/**
 * The operator-tree executor `parse_command`: a recursive walk over the
 * command tree that threads the shell state through the simple commands it
 * runs and records them, in order, as a trace.
 */
module Executor {
  import opened Wrappers
  import opened CommandTree
  import opened SimpleExec

  /** One simple command that was run, and what it did. */
  datatype Ran = Ran(cmd: SimpleCommand, effect: Effect)

  datatype Run = Run(status: int, state: State, trace: seq<Ran>)

  function RunSimple(s: SimpleCommand, st: State, w: World, level: int, father: Option<Command>): Run
  {
    var o := ParseSimple(s, st, w, level, father);
    Run(o.status, o.state, [Ran(s, o.effect)])
  }

  /**
   * `parse_command`. The parallel and pipe cases leave `ret` unassigned and
   * return whatever it holds (World.uninit); an unknown tag returns
   * SHELL_EXIT. Neither runs a child. A tree of implemented operators runs
   * at least one simple command, and when none runs the shell state is left
   * as it was.
   */
  function ParseCommand(c: Command, st: State, w: World, level: int, father: Option<Command>): (r: Run)
    ensures Supported(c) ==> r.trace != []
    ensures r.trace == [] ==> r.state == st
    decreases c
  {
    match c
    case Simple(s) => RunSimple(s, st, w, level, father)
    case Compound(op, cmd1, cmd2) =>
      match op
      case Sequential =>
        var r1 := ParseCommand(cmd1, st, w, level + 1, Some(c));
        Then(r1, ParseCommand(cmd2, r1.state, w, level + 1, father))
      case Parallel => Run(w.uninit, st, [])
      case CondNZero =>
        var r1 := ParseCommand(cmd1, st, w, level + 1, Some(c));
        if r1.status != 0 then
          Then(r1, ParseCommand(cmd2, r1.state, w, level + 1, Some(c)))
        else r1
      case CondZero =>
        var r1 := ParseCommand(cmd1, st, w, level + 1, Some(c));
        if r1.status == 0 then
          Then(r1, ParseCommand(cmd2, r1.state, w, level + 1, Some(c)))
        else r1
      case Pipe => Run(w.uninit, st, [])
      case Unknown(_) => Run(SHELL_EXIT, st, [])
  }

  // ---------------------------------------------------------------------
  // A reference meaning: one dispatch table over the operators, no context

  /** Whether the right operand runs, given the left operand's status. */
  predicate Proceeds(op: Operator, status: int)
  {
    match op
    case Sequential => true
    case CondNZero => status != 0
    case CondZero => status == 0
    case _ => false
  }

  /** The status of an operator whose case runs no operand. */
  function Idle(op: Operator, w: World): int
  {
    if op.Unknown? then SHELL_EXIT else w.uninit
  }

  /** The left run followed by the right one: the right's status and state, both traces. */
  function Then(r1: Run, r2: Run): Run
  {
    Run(r2.status, r2.state, r1.trace + r2.trace)
  }

  function Meaning(c: Command, st: State, w: World): Run
    decreases c
  {
    match c
    case Simple(s) => RunSimple(s, st, w, 0, None)
    case Compound(op, a, b) =>
      if op == Parallel || op == Pipe || op.Unknown? then Run(Idle(op, w), st, [])
      else
        var ra := Meaning(a, st, w);
        if Proceeds(op, ra.status) then Then(ra, Meaning(b, ra.state, w)) else ra
  }

  /** `parse_command` agrees with the table, whatever `level` and `father` it is given. */
  lemma {:induction false} ParseCommandMeaning(c: Command, st: State, w: World, level: int, father: Option<Command>)
    ensures ParseCommand(c, st, w, level, father) == Meaning(c, st, w)
    decreases c
  {
    match c
    case Simple(s) =>
    case Compound(op, a, b) =>
      if op == Sequential || op == CondNZero || op == CondZero {
        ParseCommandMeaning(a, st, w, level + 1, Some(c));
        var ra := Meaning(a, st, w);
        ParseCommandMeaning(b, ra.state, w, level + 1, father);
        ParseCommandMeaning(b, ra.state, w, level + 1, Some(c));
      }
  }

  /** `level` and `father` are context only: they never change the result. */
  lemma ContextIrrelevant(c: Command, st: State, w: World, l1: int, f1: Option<Command>, l2: int, f2: Option<Command>)
    ensures ParseCommand(c, st, w, l1, f1) == ParseCommand(c, st, w, l2, f2)
  {
    ParseCommandMeaning(c, st, w, l1, f1);
    ParseCommandMeaning(c, st, w, l2, f2);
  }

  // ---------------------------------------------------------------------
  // The operators

  /** An OP_NONE node runs its simple command once and returns exactly its status. */
  lemma SimpleNode(s: SimpleCommand, st: State, w: World, level: int, father: Option<Command>)
    ensures var r := ParseCommand(Simple(s), st, w, level, father);
      var o := ParseSimple(s, st, w, 0, None);
      r.status == o.status && r.state == o.state && r.trace == [Ran(s, o.effect)]
  {
  }

  /**
   * `a ; b`: a runs to completion first, then b from the state a left; the
   * result is b's status whatever a returned, SHELL_EXIT included.
   */
  lemma SequentialRunsBoth(a: Command, b: Command, st: State, w: World, level: int, father: Option<Command>)
    ensures var r := ParseCommand(Compound(Sequential, a, b), st, w, level, father);
      var ra := Meaning(a, st, w);
      var rb := Meaning(b, ra.state, w);
      r.status == rb.status && r.state == rb.state && r.trace == ra.trace + rb.trace
  {
    ParseCommandMeaning(Compound(Sequential, a, b), st, w, level, father);
  }

  /** `a || b`: b runs iff a's status is nonzero; if it does not, the result is a's status, 0. */
  lemma OrElse(a: Command, b: Command, st: State, w: World, level: int, father: Option<Command>)
    ensures var r := ParseCommand(Compound(CondNZero, a, b), st, w, level, father);
      var ra := Meaning(a, st, w);
      var rb := Meaning(b, ra.state, w);
      && (ra.status != 0 ==> r.status == rb.status && r.state == rb.state && r.trace == ra.trace + rb.trace)
      && (ra.status == 0 ==> r == ra && r.status == 0)
  {
    ParseCommandMeaning(Compound(CondNZero, a, b), st, w, level, father);
  }

  /** `a && b`: b runs iff a's status is 0; if it does not, the result is a's nonzero status. */
  lemma AndThen(a: Command, b: Command, st: State, w: World, level: int, father: Option<Command>)
    ensures var r := ParseCommand(Compound(CondZero, a, b), st, w, level, father);
      var ra := Meaning(a, st, w);
      var rb := Meaning(b, ra.state, w);
      && (ra.status == 0 ==> r.status == rb.status && r.state == rb.state && r.trace == ra.trace + rb.trace)
      && (ra.status != 0 ==> r == ra && r.status != 0)
  {
    ParseCommandMeaning(Compound(CondZero, a, b), st, w, level, father);
  }

  /** An unknown operator returns SHELL_EXIT and runs neither child. */
  lemma UnknownOperator(tag: int, a: Command, b: Command, st: State, w: World, level: int, father: Option<Command>)
    ensures ParseCommand(Compound(Unknown(tag), a, b), st, w, level, father) == Run(SHELL_EXIT, st, [])
  {
  }

  /** The parallel and pipe cases run neither child and leave the status undetermined. */
  lemma UnfinishedOperators(op: Operator, a: Command, b: Command, st: State, w: World, level: int, father: Option<Command>)
    requires op == Parallel || op == Pipe
    ensures ParseCommand(Compound(op, a, b), st, w, level, father) == Run(w.uninit, st, [])
  {
  }

  /** A tree of the three implemented operators always runs its leftmost simple command first. */
  lemma {:induction false} RunsLeftmostFirst(c: Command, st: State, w: World)
    requires Supported(c)
    ensures var r := Meaning(c, st, w);
      |r.trace| > 0 && r.trace[0].cmd == Leaves(c)[0]
    decreases c
  {
    match c
    case Simple(s) =>
    case Compound(op, a, b) =>
      RunsLeftmostFirst(a, st, w);
      var ra := Meaning(a, st, w);
      assert Leaves(c)[0] == Leaves(a)[0];
      if Proceeds(op, ra.status) {
        var rb := Meaning(b, ra.state, w);
        assert (ra.trace + rb.trace)[0] == ra.trace[0];
      }
  }

  /** For `||` over implemented operators, b ran (the trace grew past a's) exactly when a's status is nonzero. */
  lemma OrElseRunsRightIff(a: Command, b: Command, st: State, w: World, level: int, father: Option<Command>)
    requires Supported(b)
    ensures var r := ParseCommand(Compound(CondNZero, a, b), st, w, level, father);
      var ra := Meaning(a, st, w);
      |r.trace| > |ra.trace| <==> ra.status != 0
  {
    OrElse(a, b, st, w, level, father);
    RunsLeftmostFirst(b, Meaning(a, st, w).state, w);
  }

  /** For `&&` over implemented operators, b ran exactly when a's status is 0. */
  lemma AndThenRunsRightIff(a: Command, b: Command, st: State, w: World, level: int, father: Option<Command>)
    requires Supported(b)
    ensures var r := ParseCommand(Compound(CondZero, a, b), st, w, level, father);
      var ra := Meaning(a, st, w);
      |r.trace| > |ra.trace| <==> ra.status == 0
  {
    AndThen(a, b, st, w, level, father);
    RunsLeftmostFirst(b, Meaning(a, st, w).state, w);
  }

  // ---------------------------------------------------------------------
  // Properties of whole runs

  function Commands(t: seq<Ran>): (cs: seq<SimpleCommand>)
    ensures |cs| == |t|
    ensures forall i :: 0 <= i < |t| ==> cs[i] == t[i].cmd
  {
    if t == [] then [] else [t[0].cmd] + Commands(t[1..])
  }

  /** x can be obtained from y by deleting elements. */
  predicate Subsequence<T(==)>(x: seq<T>, y: seq<T>)
    decreases |y|
  {
    if x == [] then true
    else if y == [] then false
    else (x[0] == y[0] && Subsequence(x[1..], y[1..])) || Subsequence(x, y[1..])
  }

  lemma {:induction false} SubsequenceOfLonger<T>(x: seq<T>, y: seq<T>, z: seq<T>)
    requires Subsequence(x, y)
    ensures Subsequence(x, z + y)
    decreases |z|
  {
    if z == [] {
      assert z + y == y;
    } else {
      SubsequenceOfLonger(x, y, z[1..]);
      assert (z + y)[1..] == z[1..] + y;
      if x != [] {
        assert z + y != [];
        assert Subsequence(x, (z + y)[1..]);
        assert Subsequence(x, z + y);
      }
    }
  }

  lemma {:induction false} SubsequenceAppend<T>(x1: seq<T>, y1: seq<T>, x2: seq<T>, y2: seq<T>)
    requires Subsequence(x1, y1) && Subsequence(x2, y2)
    ensures Subsequence(x1 + x2, y1 + y2)
    decreases |y1|
  {
    if x1 == [] {
      assert x1 + x2 == x2;
      SubsequenceOfLonger(x2, y2, y1);
    } else {
      assert y1 != [];
      assert (x1 + x2)[0] == x1[0] && (x1 + x2)[1..] == x1[1..] + x2;
      assert (y1 + y2)[0] == y1[0] && (y1 + y2)[1..] == y1[1..] + y2;
      if x1[0] == y1[0] && Subsequence(x1[1..], y1[1..]) {
        SubsequenceAppend(x1[1..], y1[1..], x2, y2);
      } else {
        SubsequenceAppend(x1, y1[1..], x2, y2);
      }
    }
  }

  lemma {:induction false} CommandsAppend(t1: seq<Ran>, t2: seq<Ran>)
    ensures Commands(t1 + t2) == Commands(t1) + Commands(t2)
  {
  }

  /** The simple commands run are leaves of the tree, in left-to-right order, none twice. */
  lemma {:induction false} RunsLeavesInOrder(c: Command, st: State, w: World)
    ensures Subsequence(Commands(Meaning(c, st, w).trace), Leaves(c))
    decreases c
  {
    match c
    case Simple(s) =>
      var t := Meaning(c, st, w).trace;
      assert Commands(t) == [s];
      assert [s][1..] == [];
    case Compound(op, a, b) =>
      if op == Parallel || op == Pipe || op.Unknown? {
      } else {
        var ra := Meaning(a, st, w);
        RunsLeavesInOrder(a, st, w);
        if Proceeds(op, ra.status) {
          var rb := Meaning(b, ra.state, w);
          RunsLeavesInOrder(b, ra.state, w);
          CommandsAppend(ra.trace, rb.trace);
          SubsequenceAppend(Commands(ra.trace), Leaves(a), Commands(rb.trace), Leaves(b));
        } else {
          SubsequenceAppend(Commands(ra.trace), Leaves(a), [], Leaves(b));
          assert Commands(ra.trace) + [] == Commands(ra.trace);
        }
      }
  }

  /** The state reached by applying the recorded effects one after another. */
  function Replay(st: State, t: seq<Ran>): State
    decreases |t|
  {
    if t == [] then st else Replay(ApplyEffect(st, t[0].effect), t[1..])
  }

  lemma {:induction false} ReplayAppend(st: State, t1: seq<Ran>, t2: seq<Ran>)
    ensures Replay(st, t1 + t2) == Replay(Replay(st, t1), t2)
    decreases |t1|
  {
    if t1 == [] {
      assert t1 + t2 == t2;
    } else {
      assert (t1 + t2)[0] == t1[0];
      assert (t1 + t2)[1..] == t1[1..] + t2;
      ReplayAppend(ApplyEffect(st, t1[0].effect), t1[1..], t2);
    }
  }

  /** The shell state after a run is exactly the recorded effects applied in order. */
  lemma {:induction false} StateIsReplay(c: Command, st: State, w: World)
    ensures Replay(st, Meaning(c, st, w).trace) == Meaning(c, st, w).state
    decreases c
  {
    match c
    case Simple(s) =>
      var t := Meaning(c, st, w).trace;
      assert t[1..] == [];
    case Compound(op, a, b) =>
      if op == Parallel || op == Pipe || op.Unknown? {
      } else {
        var ra := Meaning(a, st, w);
        StateIsReplay(a, st, w);
        if Proceeds(op, ra.status) {
          var rb := Meaning(b, ra.state, w);
          StateIsReplay(b, ra.state, w);
          ReplayAppend(st, ra.trace, rb.trace);
        }
      }
  }

  predicate NoAssignment(t: seq<Ran>)
  {
    forall i :: 0 <= i < |t| ==> !t[i].effect.Assign?
  }

  predicate NoCd(t: seq<Ran>)
  {
    forall i :: 0 <= i < |t| ==> !t[i].effect.Cd?
  }

  lemma {:induction false} ReplayFrames(st: State, t: seq<Ran>)
    ensures NoAssignment(t) ==> Replay(st, t).env == st.env
    ensures NoCd(t) ==> Replay(st, t).cwd == st.cwd
    decreases |t|
  {
    if t != [] {
      var st1 := ApplyEffect(st, t[0].effect);
      ReplayFrames(st1, t[1..]);
      assert NoAssignment(t) ==> NoAssignment(t[1..]) by {
        if NoAssignment(t) {
          forall i | 0 <= i < |t[1..]| ensures !t[1..][i].effect.Assign? {
            assert t[1..][i] == t[i + 1];
          }
        }
      }
      assert NoCd(t) ==> NoCd(t[1..]) by {
        if NoCd(t) {
          forall i | 0 <= i < |t[1..]| ensures !t[1..][i].effect.Cd? {
            assert t[1..][i] == t[i + 1];
          }
        }
      }
    }
  }

  /** Only assignments change the environment and only `cd` changes the working directory. */
  lemma OnlyBuiltinsChangeShell(c: Command, st: State, w: World, level: int, father: Option<Command>)
    ensures var r := ParseCommand(c, st, w, level, father);
      && (NoAssignment(r.trace) ==> r.state.env == st.env)
      && (NoCd(r.trace) ==> r.state.cwd == st.cwd)
  {
    ParseCommandMeaning(c, st, w, level, father);
    StateIsReplay(c, st, w);
    ReplayFrames(st, Meaning(c, st, w).trace);
  }

  /** Over the implemented operators, the result is the status of the last simple command run. */
  lemma {:induction false} StatusOfLastCommand(c: Command, st: State, w: World)
    requires Supported(c)
    ensures var r := Meaning(c, st, w);
      |r.trace| > 0 && r.status == StatusOf(r.trace[|r.trace| - 1].effect, w)
    decreases c
  {
    match c
    case Simple(s) =>
    case Compound(op, a, b) =>
      var ra := Meaning(a, st, w);
      StatusOfLastCommand(a, st, w);
      if Proceeds(op, ra.status) {
        var rb := Meaning(b, ra.state, w);
        StatusOfLastCommand(b, ra.state, w);
        assert (ra.trace + rb.trace)[|ra.trace| + |rb.trace| - 1] == rb.trace[|rb.trace| - 1];
      }
  }

  predicate RanExit(t: seq<Ran>)
  {
    exists i :: 0 <= i < |t| && t[i].effect == Exit
  }

  /**
   * SHELL_EXIT comes back only from an `exit` that ran, an unknown operator,
   * or an unassigned status that happens to hold it; any other result is a
   * status of 0..255 or that unassigned value.
   */
  lemma {:induction false} TerminateOnlyByExitOrUnknown(c: Command, st: State, w: World)
    ensures var r := Meaning(c, st, w);
      && (r.status == SHELL_EXIT ==>
            RanExit(r.trace) || HasUnknown(c) || (HasUnfinished(c) && w.uninit == SHELL_EXIT))
      && (r.status == SHELL_EXIT || 0 <= r.status < 256 || (HasUnfinished(c) && r.status == w.uninit))
    decreases c
  {
    match c
    case Simple(s) =>
      TerminateOnlyByExit(s, st, w, 0, None);
      var r := Meaning(c, st, w);
      if r.status == SHELL_EXIT {
        assert r.trace[0].effect == Exit;
      }
    case Compound(op, a, b) =>
      if op == Parallel || op == Pipe || op.Unknown? {
      } else {
        var ra := Meaning(a, st, w);
        TerminateOnlyByExitOrUnknown(a, st, w);
        if Proceeds(op, ra.status) {
          var rb := Meaning(b, ra.state, w);
          TerminateOnlyByExitOrUnknown(b, ra.state, w);
          var t := ra.trace + rb.trace;
          if RanExit(rb.trace) {
            var i :| 0 <= i < |rb.trace| && rb.trace[i].effect == Exit;
            assert t[|ra.trace| + i] == rb.trace[i];
          }
        }
      }
  }

  // ---------------------------------------------------------------------
  // Regrouping

  /** One step of the meaning of an implemented operator. */
  lemma MeaningStep(op: Operator, a: Command, b: Command, st: State, w: World)
    requires op == Sequential || op == CondNZero || op == CondZero
    ensures var ra := Meaning(a, st, w);
      Meaning(Compound(op, a, b), st, w)
        == if Proceeds(op, ra.status) then Then(ra, Meaning(b, ra.state, w)) else ra
  {
  }

  /** `(a op b) op c` and `a op (b op c)` mean the same for each implemented operator. */
  lemma MeaningAssociative(op: Operator, a: Command, b: Command, c: Command, st: State, w: World)
    requires op == Sequential || op == CondNZero || op == CondZero
    ensures Meaning(Compound(op, Compound(op, a, b), c), st, w)
         == Meaning(Compound(op, a, Compound(op, b, c)), st, w)
  {
    var ra := Meaning(a, st, w);
    var ab := Meaning(Compound(op, a, b), st, w);
    MeaningStep(op, Compound(op, a, b), c, st, w);
    MeaningStep(op, a, b, st, w);
    MeaningStep(op, a, Compound(op, b, c), st, w);
    if Proceeds(op, ra.status) {
      var rb := Meaning(b, ra.state, w);
      MeaningStep(op, b, c, ra.state, w);
      if Proceeds(op, rb.status) {
        var rc := Meaning(c, rb.state, w);
        assert (ra.trace + rb.trace) + rc.trace == ra.trace + (rb.trace + rc.trace);
      }
    }
  }

  /** `(a ; b) ; c` and `a ; (b ; c)` run the same commands to the same result. */
  lemma SequentialAssociative(a: Command, b: Command, c: Command, st: State, w: World,
                              l1: int, f1: Option<Command>, l2: int, f2: Option<Command>)
    ensures ParseCommand(Compound(Sequential, Compound(Sequential, a, b), c), st, w, l1, f1)
         == ParseCommand(Compound(Sequential, a, Compound(Sequential, b, c)), st, w, l2, f2)
  {
    ParseCommandMeaning(Compound(Sequential, Compound(Sequential, a, b), c), st, w, l1, f1);
    ParseCommandMeaning(Compound(Sequential, a, Compound(Sequential, b, c)), st, w, l2, f2);
    MeaningAssociative(Sequential, a, b, c, st, w);
  }

  /** `(a && b) && c` and `a && (b && c)` run the same commands to the same result. */
  lemma AndThenAssociative(a: Command, b: Command, c: Command, st: State, w: World,
                           l1: int, f1: Option<Command>, l2: int, f2: Option<Command>)
    ensures ParseCommand(Compound(CondZero, Compound(CondZero, a, b), c), st, w, l1, f1)
         == ParseCommand(Compound(CondZero, a, Compound(CondZero, b, c)), st, w, l2, f2)
  {
    ParseCommandMeaning(Compound(CondZero, Compound(CondZero, a, b), c), st, w, l1, f1);
    ParseCommandMeaning(Compound(CondZero, a, Compound(CondZero, b, c)), st, w, l2, f2);
    MeaningAssociative(CondZero, a, b, c, st, w);
  }

  /** `(a || b) || c` and `a || (b || c)` run the same commands to the same result. */
  lemma OrElseAssociative(a: Command, b: Command, c: Command, st: State, w: World,
                          l1: int, f1: Option<Command>, l2: int, f2: Option<Command>)
    ensures ParseCommand(Compound(CondNZero, Compound(CondNZero, a, b), c), st, w, l1, f1)
         == ParseCommand(Compound(CondNZero, a, Compound(CondNZero, b, c)), st, w, l2, f2)
  {
    ParseCommandMeaning(Compound(CondNZero, Compound(CondNZero, a, b), c), st, w, l1, f1);
    ParseCommandMeaning(Compound(CondNZero, a, Compound(CondNZero, b, c)), st, w, l2, f2);
    MeaningAssociative(CondNZero, a, b, c, st, w);
  }
}
