/** How a git command went. */
module GitCommand {

  /** It could not be run at all, or it exited with this code and this standard output. */
  datatype Command = NotRun | Exited(code: int, stdout: string)
}
