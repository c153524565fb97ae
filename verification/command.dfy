/**
  Shared vocabulary of the commands: an optional value, and the way a
  command invocation ends. A command either passes its argument check and
  runs, or stops at that check by raising the command framework's exit
  exception with a status. A run may still raise after its check (for
  example the guessing game's prompt at the end of input, or the dice
  roller's float division or its printing of a very long total). The model
  records every run that passed the check inside `Ran` and does not model
  its exit status.
 */
module Command {

  /**
    A value that may be absent: a line's integer value, or None when the
    integer conversion rejected the line; the dice roller's average line, or
    None when only one roll is made.
   */
  datatype Option<+T> = None | Some(value: T)

  /** How one command invocation ends. */
  datatype Run<+T> =
    | Ran(value: T)      // the arguments passed the check and the body ran
    | Exit(status: int)  // the handler raised the exit exception with `status`

  /** The status both interactive commands use when their bounds are rejected. */
  const BadBounds: int := 1
}
