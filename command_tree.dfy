/**
 * The command tree handed to the executor by the parser: simple commands at
 * the leaves, operators at the inner nodes. cmd.h and parser.h, which declare
 * these types and constants, are not part of this model.
 */
module CommandTree {
  import opened Wrappers
  import opened Words

  /** The distinguished status that tells the caller to stop the shell. */
  const SHELL_EXIT: int := -100

  /** Bits of `io_flags`. */
  const IO_OUT_APPEND: bv32 := 1
  const IO_ERR_APPEND: bv32 := 2

  /** `simple_command_t`: the verb, its parameters, the three redirection targets and the flags. */
  datatype SimpleCommand = SimpleCommand(
    verb: Word,
    params: seq<Word>,
    input: Option<Word>,
    output: Option<Word>,
    error: Option<Word>,
    ioFlags: bv32)

  /** The operators of `command_t` other than OP_NONE; Unknown is any other tag value. */
  datatype Operator =
    | Sequential
    | Parallel
    | CondNZero
    | CondZero
    | Pipe
    | Unknown(tag: int)

  /** `command_t`: an OP_NONE node holds a simple command, every other node two children. */
  datatype Command =
    | Simple(scmd: SimpleCommand)
    | Compound(op: Operator, cmd1: Command, cmd2: Command)

  /** The simple commands of a tree, left to right. */
  function Leaves(c: Command): (ls: seq<SimpleCommand>)
    ensures |ls| > 0
  {
    match c
    case Simple(s) => [s]
    case Compound(_, a, b) => Leaves(a) + Leaves(b)
  }

  /** Only the three operators whose cases the executor implements occur in the tree. */
  predicate Supported(c: Command)
  {
    match c
    case Simple(_) => true
    case Compound(op, a, b) =>
      (op == Sequential || op == CondNZero || op == CondZero) && Supported(a) && Supported(b)
  }

  /** The tree holds a node whose tag the executor does not recognise. */
  predicate HasUnknown(c: Command)
  {
    match c
    case Simple(_) => false
    case Compound(op, a, b) => op.Unknown? || HasUnknown(a) || HasUnknown(b)
  }

  /** The tree holds a parallel or pipe node, whose case leaves the status unset. */
  predicate HasUnfinished(c: Command)
  {
    match c
    case Simple(_) => false
    case Compound(op, a, b) => op == Parallel || op == Pipe || HasUnfinished(a) || HasUnfinished(b)
  }
}
